/** A whole folder sync over frames that may refuse to encode: every run of both parties, from the greeting to both
    ends, and what it leaves behind. */
module SyncRuns {
  import opened Bytes
  import opened FrameProtocol
  import opened Ordering
  import opened RelPaths
  import opened SyncProtocol
  import opened SyncReceivers
  import opened SyncSenders
  import opened TransferEngine
  import opened Wrappers

  // ---- runs ---------------------------------------------------------------------------------------------------------

  /** One turn of either side: a frame that does not encode ends it there. */
  ghost function ReceiverTurn(cfg: Config, sys: System, w: Weather): System {
    var e := Replied(cfg.json, ReceiverEffect(cfg, sys, w), w);
    System(sys.s, e.r, if sys.toR == [] then [] else sys.toR[1..], sys.toS + e.out)
  }

  function SenderTurn(cfg: Config, sys: System): System
    requires InPlan(sys.s)
  {
    var e := Transmitted(cfg.json, SenderEffect(cfg, sys));
    System(e.s, sys.r, sys.toR + e.out, if sys.toS == [] then [] else sys.toS[1..])
  }

  ghost function Turn(cfg: Config, sys: System, move: Move): System
    requires Enabled(sys, move)
  {
    if move.SenderMove? then SenderTurn(cfg, sys) else ReceiverTurn(cfg, sys, move.w)
  }

  function Start(cfg: Config): System {
    var e := Transmitted(cfg.json, SEffect(NewSender(cfg.manifest), Greeting(cfg.manifest, cfg.folder)));
    System(e.s, Fresh(cfg.opts, cfg.dest), e.out, [])
  }

  /** Every move could be made when it was. */
  ghost predicate Legal(cfg: Config, sys: System, moves: seq<Move>)
    decreases |moves|
  {
    moves != [] ==> Enabled(sys, moves[0]) && Legal(cfg, Turn(cfg, sys, moves[0]), moves[1..])
  }

  ghost function RunOf(cfg: Config, sys: System, moves: seq<Move>): System
    requires Legal(cfg, sys, moves)
    decreases |moves|
  {
    if moves == [] then sys else RunOf(cfg, Turn(cfg, sys, moves[0]), moves[1..])
  }

  ghost predicate AllCalm(moves: seq<Move>) {
    forall k :: 0 <= k < |moves| && moves[k].ReceiverMove? ==> Calm(moves[k].w)
  }

  ghost predicate Ended(sys: System) {
    SenderDone(sys.s) && ReceiverDone(sys.r)
  }

  // ---- what is on the channels --------------------------------------------------------------------------------------

  ghost function ToReceiver(cfg: Config, st: Stage): seq<Frame>
    requires Bounded(cfg, st)
  {
    match st
    case Greet(i, _) => OpeningFrames(cfg); Greeting(cfg.manifest, cfg.folder)[i..]
    case Sending(n, _, k) => FramesOf(cfg, n)[k..]
    case Close(k, _) => Closing(cfg)[k..]
    case _ => []
  }

  lemma ToReceiverIs(cfg: Config, sys: System, st: Stage)
    requires At(cfg, sys, st) && !Failing(st)
    ensures Bounded(cfg, st) && sys.toR == ToReceiver(cfg, st)
  {
    IsBounded(cfg, sys, st);
    hide Plan, Deletes, FramesOf, Closing, Greeting, MidFile, Between, Finishing, SafeSource, SenderSummary, Spent,
         AllAccepted, Answers, SenderGreeted, ReceiverGreeted, Bounded, BytesOf, SenderAt, Receipt;
  }

  ghost function ToSender(cfg: Config, st: Stage): seq<ControlFrame>
    requires Bounded(cfg, st)
  {
    match st
    case Greet(i, j) => if j <= |Answers(cfg, i)| then Answers(cfg, i)[j..] else []
    case Judged(n, _, _) => [FileOk(Plan(cfg)[n].path)]
    case Close(k, stuck) => if k == |Closing(cfg)| then [Receipt(cfg, stuck)] else []
    case _ => []
  }

  lemma ToSenderIs(cfg: Config, sys: System, st: Stage)
    requires At(cfg, sys, st) && !Failing(st) && (st.Judged? ==> st.ok)
    ensures Bounded(cfg, st) && sys.toS == ToSender(cfg, st)
  {
    IsBounded(cfg, sys, st);
    hide Plan, Deletes, FramesOf, Closing, Greeting, MidFile, Between, Finishing, SafeSource, SenderSummary, Spent,
         AllAccepted, Answers, SenderGreeted, ReceiverGreeted, Bounded, BytesOf, SenderAt, Receipt;
  }

  // ---- what each move says ------------------------------------------------------------------------------------------

  /** What the sender says on its way to a stage. */
  ghost function SaidIn(cfg: Config, to: Stage): seq<Frame>
    requires Bounded(cfg, to)
  {
    match to
    case Sending(n, _, _) => FramesOf(cfg, n)
    case Close(_, _) => Closing(cfg)
    case _ => []
  }

  lemma SenderAppends(cfg: Config, sys: System)
    requires InPlan(sys.s)
    ensures SenderMoved(cfg, sys).toR == sys.toR + SenderEffect(cfg, sys).out
  {
    hide SenderEffect;
  }

  lemma SenderSays(cfg: Config, sys: System, st: Stage, to: Stage)
    requires At(cfg, sys, st) && CanSend(sys) && !Failing(st) && !Failing(to)
    requires At(cfg, SenderMoved(cfg, sys), to) && SenderFollows(cfg, st, to)
    ensures Bounded(cfg, to) && SenderEffect(cfg, sys).out == SaidIn(cfg, to)
    ensures st.Greet? && !to.Greet? ==> st.i == OpeningLength(cfg)
  {
    hide At, SenderEffect, SenderMoved, CanReceive, SenderFollows, SaidIn, ToReceiver;
    SenderAppends(cfg, sys);
    ToReceiverIs(cfg, sys, st);
    ToReceiverIs(cfg, SenderMoved(cfg, sys), to);
    Movable(cfg, sys, st);
    var out := SenderEffect(cfg, sys).out;
    if st.Greet? {
      GreetAtEnd(cfg, sys, st.i, st.j);
      GreetSaid(cfg, st, to, out);
    } else {
      LaterSaid(cfg, st, to, out);
    }
  }

  lemma GreetSaid(cfg: Config, st: Stage, to: Stage, out: seq<Frame>)
    requires Bounded(cfg, st) && Bounded(cfg, to) && st.Greet? && SenderFollows(cfg, st, to)
    requires |Greeting(cfg.manifest, cfg.folder)| == OpeningLength(cfg)
    requires st.j + 1 >= AnswerLength(cfg) ==> st.i == OpeningLength(cfg)
    requires ToReceiver(cfg, st) + out == ToReceiver(cfg, to)
    ensures out == SaidIn(cfg, to)
    ensures !to.Greet? ==> st.i == OpeningLength(cfg)
  {
    hide FramesOf, Closing, Plan, Greeting, OpeningLength, AnswerLength;
    if to.Greet? {
      assert |ToReceiver(cfg, st) + out| == |ToReceiver(cfg, st)| + |out|;
    } else {
      assert [] + out == out;
    }
  }

  lemma LaterSaid(cfg: Config, st: Stage, to: Stage, out: seq<Frame>)
    requires Bounded(cfg, st) && Bounded(cfg, to) && !st.Greet? && !Failing(st) && SenderFollows(cfg, st, to)
             && !Failing(to)
    requires st.Close? ==> st.k == |Closing(cfg)|
    requires ToReceiver(cfg, st) + out == ToReceiver(cfg, to)
    ensures out == SaidIn(cfg, to)
  {
    hide FramesOf, Closing, Plan, Greeting, OpeningLength, AnswerLength;
    assert [] + out == out;
  }

  lemma GreetAtEnd(cfg: Config, sys: System, i: nat, j: nat)
    requires At(cfg, sys, Greet(i, j)) && CanSend(sys)
    ensures j + 1 >= AnswerLength(cfg) ==> i == OpeningLength(cfg)
    ensures |Greeting(cfg.manifest, cfg.folder)| == OpeningLength(cfg)
  {
    assert AtGreet(cfg, sys, i, j);
    FromGreet(cfg, sys, i, j);
    FromGreetCount(cfg, sys, i, j);
    AnswersAreTwo(cfg);
    hide *;
  }

  /** What the receiver says on its way to a stage. */
  ghost function AnsweredIn(cfg: Config, to: Stage): seq<ControlFrame>
    requires Bounded(cfg, to)
  {
    match to
    case Greet(i, _) =>
      if i == 1 then [HelloFrame(Sync, None)] else if i == OpeningLength(cfg) then AckFrames(Held(cfg)) else []
    case _ => ToSender(cfg, to)
  }

  lemma ReceiverAppends(cfg: Config, sys: System, w: Weather)
    ensures ReceiverMoved(cfg, sys, w).toS == sys.toS + ReceiverEffect(cfg, sys, w).out
  {
    hide ReceiverEffect;
  }

  lemma ReceiverSays(cfg: Config, sys: System, st: Stage, to: Stage, w: Weather)
    requires At(cfg, sys, st) && CanReceive(sys) && !Failing(st) && !Failing(to) && (to.Judged? ==> to.ok)
    requires At(cfg, ReceiverMoved(cfg, sys, w), to) && ReceiverFollows(cfg, st, to)
    ensures Bounded(cfg, to) && ReceiverEffect(cfg, sys, w).out == AnsweredIn(cfg, to)
  {
    hide At, ReceiverEffect, ReceiverMoved, CanReceive, CanSend, ReceiverFollows, AnsweredIn, ToSender;
    ReceiverAppends(cfg, sys, w);
    Movable(cfg, sys, st);
    ToSenderIs(cfg, sys, st);
    ToSenderIs(cfg, ReceiverMoved(cfg, sys, w), to);
    var out := ReceiverEffect(cfg, sys, w).out;
    if st.Greet? {
      GreetFollows(cfg, st, to);
      GreetAnswers(cfg, sys, st.i, st.j, out);
      GreetSays(cfg, st, to, out);
    } else {
      LaterSays(cfg, st, to, out);
    }
  }

  lemma GreetFollows(cfg: Config, st: Stage, to: Stage)
    requires ReceiverFollows(cfg, st, to) && st.Greet? && !Failing(to)
    requires Bounded(cfg, to)
    ensures to == Greet(st.i + 1, st.j) && st.i < OpeningLength(cfg)
  {
    hide OpeningLength, AnswerLength;
  }

  lemma GreetSays(cfg: Config, st: Stage, to: Stage, out: seq<ControlFrame>)
    requires Bounded(cfg, st) && Bounded(cfg, to) && st.Greet? && to == Greet(st.i + 1, st.j)
    requires st.j <= |Answers(cfg, st.i)| && st.j <= |Answers(cfg, to.i)|
             && ToSender(cfg, st) + out == ToSender(cfg, to)
    requires Answers(cfg, st.i)[st.j..] + out == Answers(cfg, to.i)[st.j..] ==>
               out == if st.i == 0 then [HelloFrame(Sync, None)]
                      else if to.i == OpeningLength(cfg) then AckFrames(Held(cfg)) else []
    ensures out == AnsweredIn(cfg, to)
  {
    hide OpeningLength, AnswerLength, Answers, AckFrames, Held, HelloFrame;
  }

  lemma LaterSays(cfg: Config, st: Stage, to: Stage, out: seq<ControlFrame>)
    requires Bounded(cfg, st) && Bounded(cfg, to) && (st.Sending? || st.Close?) && ReceiverFollows(cfg, st, to)
             && !Failing(to)
    requires ToSender(cfg, st) + out == ToSender(cfg, to)
    ensures out == AnsweredIn(cfg, to)
  {
    hide OpeningLength, AnswerLength, Answers, Closing, Plan, FramesOf, Receipt;
    assert [] + out == out;
  }

  lemma GreetAnswers(cfg: Config, sys: System, i: nat, j: nat, out: seq<ControlFrame>)
    requires At(cfg, sys, Greet(i, j)) && i < OpeningLength(cfg)
    ensures j <= |Answers(cfg, i)| && j <= |Answers(cfg, i + 1)|
    ensures Answers(cfg, i)[j..] + out == Answers(cfg, i + 1)[j..] ==>
              out == if i == 0 then [HelloFrame(Sync, None)]
                     else if i + 1 == OpeningLength(cfg) then AckFrames(Held(cfg)) else []
  {
    assert AtGreet(cfg, sys, i, j);
    FromGreet(cfg, sys, i, j);
    FromGreetCount(cfg, sys, i, j);
    hide AckFrames, Held, OpeningLength, AtGreet, SenderGreeted, ReceiverGreeted, Greeting;
    var prefix := Answers(cfg, i)[j..];
    if prefix + out == Answers(cfg, i + 1)[j..] {
      assert (prefix + out)[|prefix|..] == out;
    }
  }

  // ---- frames that encode -------------------------------------------------------------------------------------------

  ghost predicate OpeningFits(cfg: Config) {
    AllEncodable(cfg.json, Greeting(cfg.manifest, cfg.folder))
  }

  ghost predicate AnswersFit(cfg: Config, i: nat) {
    AllEncodable(cfg.json, Controls(Answers(cfg, i)))
  }

  /** The frames of one planned file, and its acknowledgement. */
  ghost predicate FileFits(cfg: Config, n: nat)
    requires n < |Plan(cfg)|
  {
    AllEncodable(cfg.json, FramesOf(cfg, n)) && Encodable(cfg.json, Control(FileOk(Plan(cfg)[n].path)))
  }

  ghost predicate FilesFit(cfg: Config, n: nat)
    requires n <= |Plan(cfg)|
  {
    forall m :: 0 <= m < n ==> FileFits(cfg, m)
  }

  ghost predicate ClosingFits(cfg: Config) {
    AllEncodable(cfg.json, Closing(cfg))
  }

  ghost predicate ReceiptFits(cfg: Config, stuck: set<string>) {
    Encodable(cfg.json, Control(Receipt(cfg, stuck)))
  }

  /** The greeting, the answers, and everything about the first `n` files. */
  ghost predicate FitUpTo(cfg: Config, n: nat)
    requires n <= |Plan(cfg)|
  {
    OpeningFits(cfg) && AnswersFit(cfg, OpeningLength(cfg)) && FilesFit(cfg, n)
  }

  /** Every frame either side has to say encodes: the greeting, the answers, the planned files, the delete list, and
      both final frames. */
  ghost predicate AllFit(cfg: Config) {
    FitUpTo(cfg, |Plan(cfg)|) && ClosingFits(cfg) && ReceiptFits(cfg, {})
  }

  /** What has gone out by a stage encodes. */
  ghost predicate Fit(cfg: Config, st: Stage)
    requires Bounded(cfg, st)
  {
    match st
    case Greet(i, _) => OpeningFits(cfg) && AnswersFit(cfg, i)
    case Sending(n, _, _) => FitUpTo(cfg, n) && AllEncodable(cfg.json, FramesOf(cfg, n))
    case Judged(n, _, ok) => FitUpTo(cfg, n) && AllEncodable(cfg.json, FramesOf(cfg, n)) && (ok ==> FileFits(cfg, n))
    case Close(k, stuck) =>
      FitUpTo(cfg, |Plan(cfg)|) && ClosingFits(cfg) && (k == |Closing(cfg)| ==> ReceiptFits(cfg, stuck))
    case Succeeded(stuck) => FitUpTo(cfg, |Plan(cfg)|) && ClosingFits(cfg) && ReceiptFits(cfg, stuck)
    case _ => true
  }

  lemma NextFits(cfg: Config, n: nat)
    requires n <= |Plan(cfg)| && FitUpTo(cfg, n) && Bounded(cfg, NextStage(cfg, n))
    requires AllEncodable(cfg.json, SaidIn(cfg, NextStage(cfg, n)))
    ensures Fit(cfg, NextStage(cfg, n))
  {
    assert |Closing(cfg)| >= 1 by { hide Plan, Deletes, BytesOf; }
    hide AllEncodable, FramesOf, Closing, Plan, FitUpTo, ReceiptFits;
  }

  /** What went out on the way fits, so what has gone out by the next stage does. */
  lemma SaidFits(cfg: Config, st: Stage, to: Stage)
    requires Bounded(cfg, st) && Bounded(cfg, to) && !Failing(st) && SenderFollows(cfg, st, to) && Fit(cfg, st)
    requires st.Greet? && !to.Greet? ==> st.i == OpeningLength(cfg)
    requires st.Close? ==> st.k == |Closing(cfg)|
    requires AllEncodable(cfg.json, SaidIn(cfg, to))
    ensures Fit(cfg, to)
  {
    hide AllEncodable, Encodable, FramesOf, Closing, Plan, OpeningLength, AnswerLength, OpeningFits, AnswersFit,
         FileFits, ReceiptFits, SaidIn;
    if st.Greet? && !to.Greet? {
      NextFits(cfg, 0);
    } else if st.Judged? && st.ok {
      NextFits(cfg, st.n + 1);
    }
  }

  lemma AnswersFitMore(cfg: Config, i: nat)
    requires i < OpeningLength(cfg) && AnswersFit(cfg, i)
    requires AllEncodable(cfg.json, Controls(AnsweredIn(cfg, Greet(i + 1, 0))))
    ensures AnswersFit(cfg, i + 1)
  {
    var before, more, after := Answers(cfg, i), AnsweredIn(cfg, Greet(i + 1, 0)), Answers(cfg, i + 1);
    assert after == before + more;
    hide Encodable, Answers, AnsweredIn;
    forall k | 0 <= k < |Controls(after)|
      ensures Encodable(cfg.json, Controls(after)[k])
    {
      assert Controls(after)[k] == if k < |before| then Controls(before)[k] else Controls(more)[k - |before|];
    }
  }

  lemma AnsweredFits(cfg: Config, st: Stage, to: Stage)
    requires Bounded(cfg, st) && Bounded(cfg, to) && !Failing(st) && ReceiverFollows(cfg, st, to) && Fit(cfg, st)
    requires !Failing(to) && ((to.Judged? && !to.ok) || AllEncodable(cfg.json, Controls(AnsweredIn(cfg, to))))
    ensures Fit(cfg, to)
  {
    hide Encodable, FramesOf, Closing, Plan, AnswerLength, OpeningFits, AnswersFit, Answers, Receipt, AckFrames;
    if st.Greet? {
      hide AllEncodable, AnsweredIn, OpeningLength;
      SameAnswer(cfg, st.i + 1, st.j);
      AnswersFitMore(cfg, st.i);
    } else if to.Judged? && to.ok {
      assert Controls(AnsweredIn(cfg, to))[0] == Control(FileOk(Plan(cfg)[to.n].path));
    } else if to.Close? && to.k == |Closing(cfg)| {
      assert Controls(AnsweredIn(cfg, to))[0] == Control(Receipt(cfg, to.stuck));
    }
  }

  lemma SameAnswer(cfg: Config, i: nat, j: nat)
    requires 1 <= i <= OpeningLength(cfg) && j <= AnswerLength(cfg)
    ensures AnsweredIn(cfg, Greet(i, j)) == AnsweredIn(cfg, Greet(i, 0))
  {
  }

  /** When everything fits, so does what either side says on the way to a stage a calm run passes. */
  lemma AllFitSaid(cfg: Config, to: Stage)
    requires AllFit(cfg) && Bounded(cfg, to)
    ensures AllEncodable(cfg.json, SaidIn(cfg, to))
  {
    hide Encodable, FramesOf, Closing, Plan, Receipt;
    if to.Sending? {
      assert FileFits(cfg, to.n);
    }
  }

  lemma AllFitAnswered(cfg: Config, to: Stage)
    requires AllFit(cfg) && Bounded(cfg, to) && Well(to)
    ensures AllEncodable(cfg.json, Controls(AnsweredIn(cfg, to)))
  {
    hide Encodable, FramesOf, Closing, Plan, Receipt, OpeningLength, AckFrames, Answers, ClosingFits;
    if to.Judged? {
      assert FileFits(cfg, to.n);
    }
    if to.Greet? {
      hide AllEncodable, AnsweredIn, FileFits;
      AllFitGreeted(cfg, to.i, to.j);
    }
  }

  lemma AllFitGreeted(cfg: Config, i: nat, j: nat)
    requires AnswersFit(cfg, OpeningLength(cfg)) && i <= OpeningLength(cfg) && j <= AnswerLength(cfg)
    ensures AllEncodable(cfg.json, Controls(AnsweredIn(cfg, Greet(i, j))))
  {
    var answers, said := Answers(cfg, OpeningLength(cfg)), AnsweredIn(cfg, Greet(i, j));
    assert answers == [HelloFrame(Sync, None)] + AckFrames(Held(cfg));
    hide Encodable, AckFrames, Held, OpeningLength, AnswerLength;
    forall k | 0 <= k < |said|
      ensures Encodable(cfg.json, Controls(said)[k])
    {
      assert Controls(said)[k] == Controls(answers)[if i == 1 then 0 else k + 1];
    }
  }

  // ---- a party that stops in the middle of what it says -------------------------------------------------------------

  /** Frames a running receiver expects, none of which ends the run. */
  predicate Tidy(frames: seq<Frame>, open: bool)
    decreases |frames|
  {
    frames != [] ==>
      match frames[0]
      case Chunk(_) => open && Tidy(frames[1..], open)
      case Control(Manifest(_, _)) => Tidy(frames[1..], open)
      case Control(FileBegin(_, _, _)) => Tidy(frames[1..], true)
      case Control(FileEnd(_)) => open && Tidy(frames[1..], false)
      case Control(Delete(_)) => Tidy(frames[1..], open)
      case Control(_) => false
  }

  /** The receiver is listening, and expects these frames. */
  predicate Expects(r: Receiver, frames: seq<Frame>) {
    if r.phase.AwaitHello? then
      r.current.None? && (frames != [] ==> frames[0].Control? && frames[0].c.Hello? && Tidy(frames[1..], false))
    else r.phase.Running? && Tidy(frames, r.current.Some?)
  }

  /** The sender is listening, and nothing on its way to it makes it start or finish. */
  predicate Idle(s: Sender, answers: seq<ControlFrame>) {
    && InPlan(s) && !SenderDone(s)
    && (answers == []
        || (s.phase.AwaitAck? && !s.phase.gotAck
            && forall k :: 0 <= k < |answers| ==>
                 answers[k] == HelloFrame(Sync, None) || (answers[k].ManifestAck? && answers[k].more)))
  }

  lemma {:induction false} TidyPrefix(frames: seq<Frame>, open: bool, m: nat)
    requires Tidy(frames, open) && m <= |frames|
    ensures Tidy(frames[..m], open)
    decreases |frames|
  {
    if m == 0 {
    } else {
      var next := if frames[0].Chunk? then open else if frames[0].c.FileBegin? then true
                  else if frames[0].c.FileEnd? then false else open;
      assert frames[..m][1..] == frames[1..][..m - 1];
      TidyPrefix(frames[1..], next, m - 1);
    }
  }

  lemma {:induction false} ManifestsAreTidy(frames: seq<Frame>)
    requires forall k :: 0 <= k < |frames| ==> frames[k].Control? && frames[k].c.Manifest?
    ensures Tidy(frames, false)
    decreases |frames|
  {
    if frames == [] {
    } else {
      ManifestsAreTidy(frames[1..]);
    }
  }

  lemma {:induction false} PiecesAreTidy(frames: seq<Frame>, last: Frame)
    requires forall k :: 0 <= k < |frames| ==> frames[k].Chunk?
    requires last.Control? && last.c.FileEnd?
    ensures Tidy(frames + [last], true)
    decreases |frames|
  {
    if frames == [] {
      assert (frames + [last])[1..] == [];
    } else {
      assert (frames + [last])[1..] == frames[1..] + [last];
      PiecesAreTidy(frames[1..], last);
    }
  }

  lemma FileIsTidy(h: Hash, entry: FileEntry, pieces: seq<seq<Byte>>)
    ensures Tidy(FileFrames(h, entry, pieces), false)
  {
    var last := Control(FileEnd(h(Content(pieces))));
    var frames := FileFrames(h, entry, pieces);
    assert frames[0] == Control(FileBegin(entry.path, entry.size, entry.mode));
    assert frames[1..] == ChunkFrames(pieces) + [last];
    hide Content, FileFrames;
    PiecesAreTidy(ChunkFrames(pieces), last);
  }

  lemma FileCutIsExpected(cfg: Config, sys: System, n: nat, again: bool, m: nat)
    requires AtSending(cfg, sys, n, again, 0) && m <= |sys.toR|
    ensures Expects(sys.r, sys.toR[..m])
  {
    var frames := FramesOf(cfg, n);
    assert frames[0..] == frames;
    FileIsTidy(cfg.h, Plan(cfg)[n], Pieces(cfg, Plan(cfg)[n]));
    TidyPrefix(frames, false, m);
    hide Plan, Pieces, FramesOf, SafeSource, Spent, Landed, BytesOf, Tidy, SenderAt, Engine;
  }

  lemma CloseStart(cfg: Config, sys: System, stuck: set<string>)
    requires AtClose(cfg, sys, 0, stuck)
    ensures sys.r.phase.Running? && sys.r.current.None? && sys.toR == Closing(cfg)[0..]
  {
    ClosingIs(cfg);
    hide Plan, Deletes, SafeSource, Landed, Mirrored, BytesOf, Closing, AllAccepted, SenderSummary, Engine, Finishing,
         Between;
    if |Closing(cfg)| == 2 {
      assert Between(cfg, sys.r, |Plan(cfg)|);
      BetweenRuns(cfg, sys.r);
    } else {
      assert Finishing(cfg, sys.r, stuck);
      FinishingRuns(cfg, sys.r, stuck);
    }
  }

  lemma BetweenRuns(cfg: Config, r: Receiver)
    requires Between(cfg, r, |Plan(cfg)|)
    ensures r.phase.Running?
  {
    hide Plan, Landed, Engine, BytesOf;
  }

  lemma FinishingRuns(cfg: Config, r: Receiver, stuck: set<string>)
    requires Finishing(cfg, r, stuck)
    ensures r.current.None?
  {
    hide Plan, Mirrored, Engine, BytesOf, DeletedCount;
  }

  lemma DeleteIsTidy(frames: seq<Frame>, m: nat)
    requires m < |frames| <= 2 && (|frames| == 2 ==> frames[0].Control? && frames[0].c.Delete?)
    ensures Tidy(frames[..m], false)
  {
    if m == 1 {
      assert frames[..m] == [frames[0]] && [frames[0]][1..] == [];
    }
  }

  lemma CloseCutIsExpected(cfg: Config, sys: System, stuck: set<string>, m: nat)
    requires AtClose(cfg, sys, 0, stuck) && m < |sys.toR|
    ensures Expects(sys.r, sys.toR[..m])
  {
    CloseStart(cfg, sys, stuck);
    ClosingIs(cfg);
    hide *;
    var frames := Closing(cfg);
    assert frames[0..] == frames;
    DeleteIsTidy(frames, m);
    RunningExpects(sys.r, sys.toR[..m]);
  }

  lemma RunningExpects(r: Receiver, frames: seq<Frame>)
    requires r.phase.Running? && r.current.None? && Tidy(frames, false)
    ensures Expects(r, frames)
  {
    hide Tidy;
  }

  /** A sender that stops on its way to a stage leaves a receiver that expects what went out. */
  lemma CutIsExpected(cfg: Config, sys: System, to: Stage, m: nat)
    requires At(cfg, sys, to) && m < |sys.toR|
    requires (to.Sending? && to.k == 0) || (to.Close? && to.k == 0) || to.GivenUp?
    ensures Expects(sys.r, sys.toR[..m])
  {
    hide AtSending, AtClose;
    if to.Sending? {
      FileCutIsExpected(cfg, sys, to.n, to.again, m);
    } else if to.Close? {
      CloseCutIsExpected(cfg, sys, to.stuck, m);
    }
  }

  lemma GreetingIsExpected(cfg: Config, m: nat)
    requires m <= OpeningLength(cfg)
    ensures |Greeting(cfg.manifest, cfg.folder)| == OpeningLength(cfg)
    ensures Expects(Fresh(cfg.opts, cfg.dest), Greeting(cfg.manifest, cfg.folder)[..m])
  {
    OpeningFrames(cfg);
    hide Greeting, OpeningLength;
    var opening := Greeting(cfg.manifest, cfg.folder);
    if m > 0 {
      ManifestsAreTidy(opening[..m][1..]);
    }
  }

  /** A receiver that stops on its way to a stage leaves a sender that does nothing with what went out. */
  lemma CutIsIdle(cfg: Config, sys: System, to: Stage, m: nat)
    requires At(cfg, sys, to) && m < |sys.toS| && !SenderDone(sys.s)
    ensures Idle(sys.s, sys.toS[..m])
  {
    IsBounded(cfg, sys, to);
    if to.Greet? {
      assert AtGreet(cfg, sys, to.i, to.j);
      GreetCutIsIdle(cfg, sys, to.i, to.j, m);
    } else {
      hide Plan, Deletes, SafeSource, Landed, Mirrored, BytesOf, Closing, AllAccepted, Spent, FramesOf, Receipt,
           MidFile, Bounded;
    }
  }

  lemma GreetCutIsIdle(cfg: Config, sys: System, i: nat, j: nat, m: nat)
    requires AtGreet(cfg, sys, i, j) && m < |sys.toS|
    ensures Idle(sys.s, sys.toS[..m])
  {
    FromGreet(cfg, sys, i, j);
    AnswerFrames(cfg);
    BatchesAreLossless(Held(cfg));
    SenderWaits(cfg, j);
    hide AtGreet, SenderGreeted, ReceiverGreeted, Greeting, Answers, Held, Batches, SafeUpTo, OpeningLength;
    var answers, cut := Answers(cfg, i), sys.toS[..m];
    forall k | 0 <= k < |cut|
      ensures cut[k] == HelloFrame(Sync, None) || (cut[k].ManifestAck? && cut[k].more)
    {
      assert cut[k] == answers[j + k];
      if i == OpeningLength(cfg) && j + k >= 1 {
        AcksGrow(cfg, j + k);
      }
    }
  }

  lemma SenderWaits(cfg: Config, j: nat)
    requires j < AnswerLength(cfg)
    ensures SenderGreeted(cfg, j).phase.AwaitAck? && !SenderGreeted(cfg, j).phase.gotAck
  {
    hide Batches, Held, Unbatched;
  }

  // ---- standings ----------------------------------------------------------------------------------------------------

  /** Everything said so far went out; or the sender stopped on a frame that does not encode; or the receiver did. */
  datatype Standing = Flowing(st: Stage) | SenderCut | ReceiverCut

  ghost predicate Over(cfg: Config, sys: System, at: Standing) {
    match at
    case Flowing(st) => At(cfg, sys, st) && Bounded(cfg, st) && Fit(cfg, st)
    case SenderCut => sys.s.phase.SBroken? && Foreseen(sys.s.phase.error) && Expects(sys.r, sys.toR)
    case ReceiverCut => sys.r.phase.Broken? && Foreseen(sys.r.phase.error) && Idle(sys.s, sys.toS)
  }

  /** How many turns may still come. */
  ghost function Weight(cfg: Config, sys: System, at: Standing): nat
    requires Over(cfg, sys, at)
  {
    match at
    case Flowing(st) => Rank(cfg, st)
    case SenderCut => |sys.toR| + 1
    case ReceiverCut => |sys.toS| + 1
  }

  ghost predicate FlowsWell(at: Standing) {
    at.Flowing? && Well(at.st)
  }

  /** It flows well, or no longer gets anywhere. */
  ghost predicate WellOrOver(at: Standing) {
    at.Flowing? ==> Well(at.st) || Failing(at.st)
  }

  /** What a turn keeps when the file system refuses nothing. */
  ghost predicate KeepsWell(cfg: Config, at: Standing, next: Standing, calm: bool) {
    calm && SafeNames(cfg) ==>
      (WellOrOver(at) ==> WellOrOver(next)) && (AllFit(cfg) && FlowsWell(at) ==> FlowsWell(next))
  }

  lemma TransmittedCases(json: Json, e: SEffect)
    ensures var t := Transmitted(json, e);
            || (t == e && AllEncodable(json, e.out))
            || (exists m :: 0 <= m < |e.out| && t.out == e.out[..m]
                  && t.s == (if e.s.phase.SBroken? then e.s else e.s.(phase := t.s.phase))
                  && t.s.phase.SBroken? && (e.s.phase.SBroken? || Foreseen(t.s.phase.error)))
    ensures AllEncodable(json, e.out) ==> Transmitted(json, e) == e
  {
    AllSendableIff(json, e.out);
    hide SendableCount, AllEncodable, Encodable;
  }

  lemma RepliedCases(json: Json, e: Effect, w: Weather)
    ensures var t := Replied(json, e, w);
            || (t == e && AllEncodable(json, Controls(e.out)))
            || (exists m :: 0 <= m < |e.out| && t.out == e.out[..m]
                  && t.r.phase.Broken? && (e.r.phase.Broken? ==> t.r == e.r)
                  && (e.r.phase.Broken? || Foreseen(t.r.phase.error)))
    ensures AllEncodable(json, Controls(e.out)) ==> Replied(json, e, w) == e
  {
    AllSendableIff(json, Controls(e.out));
    hide SendableCount, AllEncodable, Encodable;
  }

  /** The turn in which everything goes out is the move. */
  lemma SenderTurnIs(cfg: Config, sys: System)
    requires InPlan(sys.s) && AllEncodable(cfg.json, SenderEffect(cfg, sys).out)
    ensures SenderTurn(cfg, sys) == SenderMoved(cfg, sys)
  {
    TransmittedCases(cfg.json, SenderEffect(cfg, sys));
    hide SenderEffect, Transmitted, AllEncodable;
  }

  lemma ReceiverTurnIs(cfg: Config, sys: System, w: Weather)
    requires AllEncodable(cfg.json, Controls(ReceiverEffect(cfg, sys, w).out))
    ensures ReceiverTurn(cfg, sys, w) == ReceiverMoved(cfg, sys, w)
  {
    RepliedCases(cfg.json, ReceiverEffect(cfg, sys, w), w);
    hide ReceiverEffect, Replied, AllEncodable;
  }

  /** A turn in which something does not go out: the mover is broken, and the frames before it went out. */
  lemma SenderTurnCut(cfg: Config, sys: System) returns (m: nat)
    requires InPlan(sys.s) && !AllEncodable(cfg.json, SenderEffect(cfg, sys).out)
    requires var moved := SenderMoved(cfg, sys); moved.s.phase.SBroken? ==> Foreseen(moved.s.phase.error)
    ensures var t, moved := SenderTurn(cfg, sys), SenderMoved(cfg, sys);
            && |sys.toR| <= m < |moved.toR| && t.toR == moved.toR[..m] && t.r == sys.r && moved.r == sys.r
            && t.s.phase.SBroken? && Foreseen(t.s.phase.error)
  {
    var e := SenderEffect(cfg, sys);
    TransmittedCases(cfg.json, e);
    hide SenderEffect, Transmitted, AllEncodable, Foreseen;
    var n :| 0 <= n < |e.out| && Transmitted(cfg.json, e).out == e.out[..n];
    m := |sys.toR| + n;
    assert (sys.toR + e.out)[..m] == sys.toR + e.out[..n];
  }

  lemma ReceiverTurnCut(cfg: Config, sys: System, w: Weather) returns (m: nat)
    requires !AllEncodable(cfg.json, Controls(ReceiverEffect(cfg, sys, w).out))
    requires var moved := ReceiverMoved(cfg, sys, w); moved.r.phase.Broken? ==> Foreseen(moved.r.phase.error)
    ensures var t, moved := ReceiverTurn(cfg, sys, w), ReceiverMoved(cfg, sys, w);
            && |sys.toS| <= m < |moved.toS| && t.toS == moved.toS[..m] && t.s == sys.s && moved.s == sys.s
            && t.r.phase.Broken? && Foreseen(t.r.phase.error)
  {
    var e := ReceiverEffect(cfg, sys, w);
    RepliedCases(cfg.json, e, w);
    hide ReceiverEffect, Replied, AllEncodable, Foreseen;
    var n :| 0 <= n < |e.out| && Replied(cfg.json, e, w).out == e.out[..n];
    m := |sys.toS| + n;
    assert (sys.toS + e.out)[..m] == sys.toS + e.out[..n];
  }

  /** No channel holds more frames than moves remain. */
  lemma ChannelsAreShort(cfg: Config, sys: System, st: Stage)
    requires At(cfg, sys, st)
    ensures Bounded(cfg, st)
    ensures (st.Sending? && st.k == 0) || (st.Close? && st.k == 0) || st.GivenUp? ==> |sys.toR| <= Rank(cfg, st)
    ensures st.Greet? || st.Judged? || st.Close? || st.Dropped? ==> |sys.toS| <= Rank(cfg, st)
  {
    IsBounded(cfg, sys, st);
    hide At, Bounded, Rank;
    if st.Greet? {
      GreetIsShort(cfg, sys, st);
    } else if st.Sending? || st.Close? {
      ToReceiverIs(cfg, sys, st);
      ToSenderIs(cfg, sys, st);
      SendingIsShort(cfg, st);
    } else {
      RestIsShort(cfg, sys, st);
    }
  }

  lemma GreetIsShort(cfg: Config, sys: System, st: Stage)
    requires At(cfg, sys, st) && st.Greet?
    ensures Bounded(cfg, st) && |sys.toS| <= Rank(cfg, st)
  {
    assert AtGreet(cfg, sys, st.i, st.j);
    FromGreet(cfg, sys, st.i, st.j);
    AnswerFrames(cfg);
    hide AtGreet, Answers, OpeningLength, AnswerLength, SenderGreeted, ReceiverGreeted, Greeting, SafeUpTo, Rest;
  }

  lemma SendingIsShort(cfg: Config, st: Stage)
    requires Bounded(cfg, st) && (st.Sending? || st.Close?)
    ensures st.k == 0 ==> |ToReceiver(cfg, st)| <= Rank(cfg, st)
    ensures |ToSender(cfg, st)| <= Rank(cfg, st)
  {
    hide Plan, FramesOf, Closing, Receipt, Rest;
  }

  lemma RestIsShort(cfg: Config, sys: System, st: Stage)
    requires At(cfg, sys, st) && Bounded(cfg, st) && !st.Greet? && !st.Sending? && !st.Close?
    ensures st.GivenUp? ==> |sys.toR| <= Rank(cfg, st)
    ensures st.Judged? || st.Dropped? ==> |sys.toS| <= Rank(cfg, st)
  {
    hide Plan, FramesOf, Between, SafeSource, Spent, SenderAt, Rest;
  }

  // ---- every turn ---------------------------------------------------------------------------------------------------

  lemma SenderFlows(cfg: Config, sys: System, st: Stage, to: Stage)
    requires Over(cfg, sys, Flowing(st)) && InPlan(sys.s) && CanSend(sys) && At(cfg, SenderMoved(cfg, sys), to)
    requires SenderFollows(cfg, st, to) && AllEncodable(cfg.json, SenderEffect(cfg, sys).out)
    ensures Over(cfg, SenderTurn(cfg, sys), Flowing(to))
  {
    hide *;
    SenderTurnIs(cfg, sys);
    IsBounded(cfg, SenderMoved(cfg, sys), to);
    FlowingMeans(cfg, sys, st);
    SpeakingStages(cfg, sys, st, to);
    if Failing(to) {
      FailingFits(cfg, to);
    } else {
      SenderSays(cfg, sys, st, to);
      SaidFits(cfg, st, to);
    }
    FlowingMeans(cfg, SenderMoved(cfg, sys), to);
  }

  lemma FlowingMeans(cfg: Config, sys: System, st: Stage)
    ensures Over(cfg, sys, Flowing(st)) <==> At(cfg, sys, st) && Bounded(cfg, st) && Fit(cfg, st)
  {
  }

  lemma SpeakingStages(cfg: Config, sys: System, st: Stage, to: Stage)
    requires At(cfg, sys, st) && CanSend(sys) && SenderFollows(cfg, st, to)
    ensures Failing(st) ==> Failing(to)
    ensures st.Close? ==> st.k == |Closing(cfg)|
  {
    hide At, CanReceive, CanSend, Closing, Bounded, AnswerLength, NextStage;
    Movable(cfg, sys, st);
  }

  lemma SenderStops(cfg: Config, sys: System, st: Stage, to: Stage) returns (next: Standing)
    requires At(cfg, sys, st) && InPlan(sys.s) && CanSend(sys) && At(cfg, SenderMoved(cfg, sys), to)
    requires SenderFollows(cfg, st, to) && Leads(cfg, st, to) && !AllEncodable(cfg.json, SenderEffect(cfg, sys).out)
    ensures Bounded(cfg, st)
    ensures Over(cfg, SenderTurn(cfg, sys), next) && Weight(cfg, SenderTurn(cfg, sys), next) < Rank(cfg, st)
    ensures next == SenderCut || next == Flowing(FailedBoth)
  {
    hide *;
    var moved, turned := SenderMoved(cfg, sys), SenderTurn(cfg, sys);
    AtIsForeseen(cfg, moved, to);
    var m := SenderTurnCut(cfg, sys);
    LeadsDown(cfg, st, to);
    if st.Dropped? {
      next := Flowing(FailedBoth);
      DroppedEnds(cfg, sys, turned, st);
    } else if Cuttable(to) {
      next := SenderCut;
      CuttableMeans(to);
      CutIsExpected(cfg, moved, to, m);
      ChannelsAreShort(cfg, moved, to);
      SenderCutStands(cfg, turned);
    } else {
      QuietIsSent(cfg, sys, st, to);
    }
  }

  lemma CuttableMeans(to: Stage)
    ensures Cuttable(to) <==> (to.Sending? && to.k == 0) || (to.Close? && to.k == 0) || to.GivenUp?
  {
  }

  lemma SenderCutStands(cfg: Config, sys: System)
    requires sys.s.phase.SBroken? && Foreseen(sys.s.phase.error) && Expects(sys.r, sys.toR)
    ensures Over(cfg, sys, SenderCut) && Weight(cfg, sys, SenderCut) == |sys.toR| + 1
  {
  }

  lemma ReceiverCutStands(cfg: Config, sys: System)
    requires sys.r.phase.Broken? && Foreseen(sys.r.phase.error) && Idle(sys.s, sys.toS)
    ensures Over(cfg, sys, ReceiverCut) && Weight(cfg, sys, ReceiverCut) == |sys.toS| + 1
  {
  }

  lemma DroppedEnds(cfg: Config, sys: System, next: System, st: Stage)
    requires At(cfg, sys, st) && st.Dropped? && next.r == sys.r && next.s.phase.SBroken? && Foreseen(next.s.phase.error)
    ensures Over(cfg, next, Flowing(FailedBoth)) && Weight(cfg, next, Flowing(FailedBoth)) == 0
  {
  }

  lemma GivenUpEnds(cfg: Config, sys: System, next: System, st: Stage)
    requires At(cfg, sys, st) && st.GivenUp? && next.s == sys.s && next.r.phase.Broken? && Foreseen(next.r.phase.error)
    ensures Over(cfg, next, Flowing(FailedBoth)) && Weight(cfg, next, Flowing(FailedBoth)) == 0
  {
  }

  predicate Cuttable(to: Stage) {
    (to.Sending? && to.k == 0) || (to.Close? && to.k == 0) || to.GivenUp?
  }

  lemma QuietIsSent(cfg: Config, sys: System, st: Stage, to: Stage)
    requires At(cfg, sys, st) && CanSend(sys) && At(cfg, SenderMoved(cfg, sys), to) && SenderFollows(cfg, st, to)
    requires !st.Dropped? && !Cuttable(to)
    ensures AllEncodable(cfg.json, SenderEffect(cfg, sys).out)
  {
    hide At, SenderMoved, SenderEffect, CanSend, AnswerLength, OpeningLength, Closing, Plan, FramesOf;
    SenderSays(cfg, sys, st, to);
  }

  /** Every turn of the sender, while everything flows, leads on. */
  lemma SenderTurnLeads(cfg: Config, sys: System, st: Stage) returns (next: Standing, to: Stage)
    requires Scanned(cfg) && Over(cfg, sys, Flowing(st)) && CanSend(sys)
    ensures Over(cfg, SenderTurn(cfg, sys), next) && Weight(cfg, SenderTurn(cfg, sys), next) < Rank(cfg, st)
    ensures KeepsWell(cfg, Flowing(st), next, true)
    ensures At(cfg, SenderMoved(cfg, sys), to) && SenderFollows(cfg, st, to)
    ensures next == Flowing(to) || !next.Flowing? || next.st == FailedBoth
  {
    hide At, SenderMoved, SenderTurn, SenderEffect, AllEncodable, CanReceive, SenderFollows, Rank, Bounded, Scanned,
         AllFit, SafeNames, Fit, StaysWell, KeepsWell, Well;
    to := SenderLeads(cfg, sys, st);
    FlowKeepsWell(cfg, st, to, true);
    if AllEncodable(cfg.json, SenderEffect(cfg, sys).out) {
      SenderFlows(cfg, sys, st, to);
      next := Flowing(to);
    } else {
      next := SenderStops(cfg, sys, st, to);
      if SafeNames(cfg) && AllFit(cfg) && Well(st) {
        WellStays(cfg, st, to, true);
        SaidWell(cfg, sys, st, to);
      }
      StopKeepsWell(cfg, st, next, true);
    }
  }

  lemma FlowKeepsWell(cfg: Config, st: Stage, to: Stage, calm: bool)
    requires StaysWell(cfg, st, to, calm) && (SenderFollows(cfg, st, to) || ReceiverFollows(cfg, st, to))
    ensures KeepsWell(cfg, Flowing(st), Flowing(to), calm)
  {
    hide AnswerLength, NextStage, SafeNames, AllFit;
  }

  lemma StopKeepsWell(cfg: Config, st: Stage, next: Standing, calm: bool)
    requires next == Flowing(FailedBoth) || !next.Flowing?
    requires !(calm && SafeNames(cfg) && AllFit(cfg) && Well(st))
    ensures KeepsWell(cfg, Flowing(st), next, calm)
  {
    hide SafeNames, AllFit;
  }

  lemma SaidWell(cfg: Config, sys: System, st: Stage, to: Stage)
    requires At(cfg, sys, st) && CanSend(sys) && At(cfg, SenderMoved(cfg, sys), to) && SenderFollows(cfg, st, to)
    requires AllFit(cfg) && Well(st) && Well(to)
    ensures AllEncodable(cfg.json, SenderEffect(cfg, sys).out)
  {
    hide At, SenderMoved, SenderEffect, CanSend, AllFit, AllEncodable, SenderFollows, Bounded;
    SenderSays(cfg, sys, st, to);
    AllFitSaid(cfg, to);
  }

  lemma ReceiverFlows(cfg: Config, sys: System, st: Stage, to: Stage, w: Weather)
    requires Over(cfg, sys, Flowing(st)) && CanReceive(sys) && At(cfg, ReceiverMoved(cfg, sys, w), to)
    requires ReceiverFollows(cfg, st, to) && AllEncodable(cfg.json, Controls(ReceiverEffect(cfg, sys, w).out))
    ensures Over(cfg, ReceiverTurn(cfg, sys, w), Flowing(to))
  {
    hide *;
    ReceiverTurnIs(cfg, sys, w);
    IsBounded(cfg, ReceiverMoved(cfg, sys, w), to);
    FlowingMeans(cfg, sys, st);
    HearingStages(cfg, sys, st, to);
    if Failing(to) {
      FailingFits(cfg, to);
    } else {
      if !to.Judged? || to.ok {
        ReceiverSays(cfg, sys, st, to, w);
      }
      AnsweredFits(cfg, st, to);
    }
    FlowingMeans(cfg, ReceiverMoved(cfg, sys, w), to);
  }

  lemma HearingStages(cfg: Config, sys: System, st: Stage, to: Stage)
    requires At(cfg, sys, st) && CanReceive(sys) && ReceiverFollows(cfg, st, to)
    ensures Failing(st) ==> Failing(to)
  {
    hide At, CanReceive, CanSend, Closing, Bounded;
    Movable(cfg, sys, st);
  }

  lemma FailingFits(cfg: Config, st: Stage)
    requires Failing(st)
    ensures Bounded(cfg, st) && Fit(cfg, st)
  {
  }

  lemma ReceiverStops(cfg: Config, sys: System, st: Stage, to: Stage, w: Weather) returns (next: Standing)
    requires At(cfg, sys, st) && CanReceive(sys) && At(cfg, ReceiverMoved(cfg, sys, w), to)
    requires ReceiverFollows(cfg, st, to) && Leads(cfg, st, to)
    requires !AllEncodable(cfg.json, Controls(ReceiverEffect(cfg, sys, w).out))
    ensures Bounded(cfg, st)
    ensures Over(cfg, ReceiverTurn(cfg, sys, w), next) && Weight(cfg, ReceiverTurn(cfg, sys, w), next) < Rank(cfg, st)
    ensures next == ReceiverCut || next == Flowing(FailedBoth)
  {
    hide *;
    var moved, turned := ReceiverMoved(cfg, sys, w), ReceiverTurn(cfg, sys, w);
    AtIsForeseen(cfg, moved, to);
    var m := ReceiverTurnCut(cfg, sys, w);
    LeadsDown(cfg, st, to);
    if st.GivenUp? {
      next := Flowing(FailedBoth);
      GivenUpEnds(cfg, sys, turned, st);
    } else {
      next := ReceiverCut;
      ListeningStages(cfg, sys, st, to);
      SenderListening(cfg, sys, st);
      ChannelsAreShort(cfg, moved, to);
      if to.Sending? {
        NothingSaid(cfg, moved, to);
      }
      CutIsIdle(cfg, moved, to, m);
      ReceiverCutStands(cfg, turned);
    }
  }

  lemma ListeningStages(cfg: Config, sys: System, st: Stage, to: Stage)
    requires At(cfg, sys, st) && CanReceive(sys) && !st.GivenUp? && ReceiverFollows(cfg, st, to)
    ensures st.Greet? || st.Sending? || st.Close?
    ensures to.Greet? || to.Sending? || to.Judged? || to.Close? || to.Dropped?
  {
    hide At, CanReceive, CanSend, Closing, Bounded;
    Movable(cfg, sys, st);
  }

  lemma NothingSaid(cfg: Config, sys: System, st: Stage)
    requires At(cfg, sys, st) && st.Sending?
    ensures sys.toS == []
  {
    hide Plan, FramesOf, MidFile, Spent, SafeSource, SenderAt;
  }

  lemma SenderListening(cfg: Config, sys: System, st: Stage)
    requires At(cfg, sys, st) && (st.Greet? || st.Sending? || st.Close?)
    ensures !SenderDone(sys.s)
  {
    if st.Greet? {
      assert AtGreet(cfg, sys, st.i, st.j);
      FromGreet(cfg, sys, st.i, st.j);
      hide AtGreet;
    } else {
      hide Plan, FramesOf, Closing, MidFile, Spent, SafeSource, Between, Finishing, Receipt, AllAccepted, Deletes;
    }
  }

  /** Every turn of the receiver, while everything flows, leads on. */
  lemma ReceiverTurnLeads(cfg: Config, sys: System, st: Stage, w: Weather) returns (next: Standing)
    requires Scanned(cfg) && Over(cfg, sys, Flowing(st)) && CanReceive(sys)
    ensures Over(cfg, ReceiverTurn(cfg, sys, w), next) && Weight(cfg, ReceiverTurn(cfg, sys, w), next) < Rank(cfg, st)
    ensures KeepsWell(cfg, Flowing(st), next, Calm(w))
    ensures next.Flowing? ==> ReceiverFollows(cfg, st, next.st) || next.st == FailedBoth
  {
    hide At, ReceiverMoved, ReceiverTurn, ReceiverEffect, AllEncodable, CanReceive, ReceiverFollows, Rank, Bounded,
         Scanned, AllFit, SafeNames, Fit, Calm, StaysWell, KeepsWell, Well;
    var to := ReceiverLeads(cfg, sys, st, w);
    FlowKeepsWell(cfg, st, to, Calm(w));
    if AllEncodable(cfg.json, Controls(ReceiverEffect(cfg, sys, w).out)) {
      ReceiverFlows(cfg, sys, st, to, w);
      next := Flowing(to);
    } else {
      next := ReceiverStops(cfg, sys, st, to, w);
      if Calm(w) && SafeNames(cfg) && AllFit(cfg) && Well(st) {
        WellStays(cfg, st, to, true);
        AnsweredWell(cfg, sys, st, to, w);
      }
      StopKeepsWell(cfg, st, next, Calm(w));
    }
  }

  lemma AnsweredWell(cfg: Config, sys: System, st: Stage, to: Stage, w: Weather)
    requires At(cfg, sys, st) && CanReceive(sys) && At(cfg, ReceiverMoved(cfg, sys, w), to)
             && ReceiverFollows(cfg, st, to)
    requires AllFit(cfg) && Well(st) && Well(to)
    ensures AllEncodable(cfg.json, Controls(ReceiverEffect(cfg, sys, w).out))
  {
    hide At, ReceiverMoved, ReceiverEffect, CanReceive, AllFit, AllEncodable, ReceiverFollows, Bounded, AnsweredIn;
    ReceiverSays(cfg, sys, st, to, w);
    AllFitAnswered(cfg, to);
  }

  // ---- after a cut --------------------------------------------------------------------------------------------------

  lemma HelloExpected(h: Hash, r: Receiver, c: ControlFrame, rest: seq<Frame>, w: Weather)
    requires r.phase.AwaitHello? && r.current.None? && c.Hello? && Tidy(rest, false)
    ensures var e := OnHello(h, r, c.protoVersion, c.mode, c.folder, w);
            (e.r.phase.Broken? && Foreseen(e.r.phase.error)) || (e.r.phase.Running? && Expects(e.r, rest))
  {
    hide Tidy, Listing, Accepted, Split, Real, PartStuck, EarlyParts, Removed;
  }

  /** A running receiver takes an expected frame, or stops for a reason other than not expecting it. */
  lemma FrameExpected(h: Hash, r: Receiver, frames: seq<Frame>, w: Weather)
    requires r.phase.Running? && frames != [] && Tidy(frames, r.current.Some?)
    ensures var e := OnRunning(h, r, frames[0], w);
            (e.r.phase.Broken? && Foreseen(e.r.phase.error)) || (e.r.phase.Running? && Expects(e.r, frames[1..]))
  {
    hide PathFault, PrunedFiles, Removed, AfterManifest, SafeCount, FirstRefused, AckFrames, IsPart;
    match frames[0] {
      case Control(Delete(paths)) =>
        DeleteForeseen(r, paths, w);
        hide OnDelete, Tidy;
      case Control(Manifest(files, more)) =>
        hide Tidy;
      case _ =>
        hide OnDelete, OnManifestFrame;
    }
  }

  lemma DeleteForeseen(r: Receiver, paths: seq<string>, w: Weather)
    requires r.phase.Running?
    ensures var e := OnDelete(r, paths, w);
            if e.r.phase == r.phase then e.r.current == r.current else e.r.phase.Broken? && Foreseen(e.r.phase.error)
  {
    hide PathFault, PrunedFiles, Removed, AllAccepted, FirstRefused;
  }

  lemma CutReceiverEffect(cfg: Config, sys: System, w: Weather)
    requires Expects(sys.r, sys.toR)
    ensures var e := ReceiverEffect(cfg, sys, w);
            if e.r.phase.Broken? then Foreseen(e.r.phase.error) else sys.toR != [] && Expects(e.r, sys.toR[1..])
  {
    hide OnHello, OnRunning, Tidy;
    if sys.toR != [] {
      if sys.r.phase.Running? {
        FrameExpected(cfg.h, sys.r, sys.toR, w);
      } else {
        HelloExpected(cfg.h, sys.r, sys.toR[0].c, sys.toR[1..], w);
      }
    }
  }

  lemma CutReceiverTurn(cfg: Config, sys: System, w: Weather) returns (next: Standing)
    requires Over(cfg, sys, SenderCut)
    ensures Over(cfg, ReceiverTurn(cfg, sys, w), next)
    ensures Weight(cfg, ReceiverTurn(cfg, sys, w), next) < Weight(cfg, sys, SenderCut)
    ensures next == SenderCut || next == Flowing(FailedBoth)
  {
    hide *;
    var e, turned := ReceiverEffect(cfg, sys, w), ReceiverTurn(cfg, sys, w);
    SenderCutMeans(cfg, sys);
    CutReceiverEffect(cfg, sys, w);
    ReceiverTurned(cfg, sys, w);
    if turned.r.phase.Broken? {
      next := Flowing(FailedBoth);
      BothBroken(cfg, turned);
    } else {
      next := SenderCut;
      SenderCutStands(cfg, turned);
    }
    SenderCutStands(cfg, sys);
  }

  lemma SenderCutMeans(cfg: Config, sys: System)
    requires Over(cfg, sys, SenderCut)
    ensures sys.s.phase.SBroken? && Foreseen(sys.s.phase.error) && Expects(sys.r, sys.toR)
  {
  }

  lemma BothBroken(cfg: Config, sys: System)
    requires sys.s.phase.SBroken? && Foreseen(sys.s.phase.error) && sys.r.phase.Broken? && Foreseen(sys.r.phase.error)
    ensures Over(cfg, sys, Flowing(FailedBoth)) && Weight(cfg, sys, Flowing(FailedBoth)) == 0
  {
  }

  /** What a turn of the receiver does to everything but its own answers. */
  lemma ReceiverTurned(cfg: Config, sys: System, w: Weather)
    ensures var e, t := ReceiverEffect(cfg, sys, w), ReceiverTurn(cfg, sys, w);
            && t.s == sys.s && t.toR == (if sys.toR == [] then [] else sys.toR[1..])
            && (t.r == e.r || (t.r.phase.Broken? && !e.r.phase.Broken? && Foreseen(t.r.phase.error)))
  {
    RepliedCases(cfg.json, ReceiverEffect(cfg, sys, w), w);
    hide ReceiverEffect, Replied, Foreseen, AllEncodable;
  }

  lemma CutSenderTurn(cfg: Config, sys: System) returns (next: Standing)
    requires Over(cfg, sys, ReceiverCut) && InPlan(sys.s)
    ensures SenderEffect(cfg, sys).out == []
    ensures Over(cfg, SenderTurn(cfg, sys), next)
    ensures Weight(cfg, SenderTurn(cfg, sys), next) < Weight(cfg, sys, ReceiverCut)
    ensures next == ReceiverCut || next == Flowing(FailedBoth)
  {
    hide SendFile, Diffed;
    var e := SenderEffect(cfg, sys);
    next := if sys.toS == [] then Flowing(FailedBoth) else ReceiverCut;
    assert e.out == [];
    assert SendableCount(cfg.json, []) == 0;
  }

  /** Every turn of either side leads on: both parties get closer to their ends. */
  lemma TurnLeads(cfg: Config, sys: System, at: Standing, move: Move) returns (next: Standing)
    requires Scanned(cfg) && Over(cfg, sys, at) && Enabled(sys, move)
    ensures Over(cfg, Turn(cfg, sys, move), next)
    ensures Weight(cfg, Turn(cfg, sys, move), next) < Weight(cfg, sys, at)
    ensures KeepsWell(cfg, at, next, move.SenderMove? || Calm(move.w))
  {
    hide At, Bounded, Fit, Rank, SenderTurn, ReceiverTurn, Expects, Idle, Foreseen, KeepsWell, Scanned;
    match at {
      case Flowing(st) =>
        if move.SenderMove? {
          var to;
          next, to := SenderTurnLeads(cfg, sys, st);
        } else {
          next := ReceiverTurnLeads(cfg, sys, st, move.w);
        }
      case SenderCut =>
        next := CutReceiverTurn(cfg, sys, move.w);
        CutKeepsWell(cfg, at, next);
      case ReceiverCut =>
        next := CutSenderTurn(cfg, sys);
        CutKeepsWell(cfg, at, next);
    }
  }

  lemma CutKeepsWell(cfg: Config, at: Standing, next: Standing)
    requires !at.Flowing? && (next == Flowing(FailedBoth) || !next.Flowing?)
    ensures forall calm :: KeepsWell(cfg, at, next, calm)
  {
    hide SafeNames, AllFit;
  }

  /** The greeting: it goes out, or the sender stops in the middle of it. */
  lemma StartStands(cfg: Config) returns (at: Standing)
    requires Scanned(cfg)
    ensures Over(cfg, Start(cfg), at) && Weight(cfg, Start(cfg), at) <= RunBound(cfg)
    ensures WellOrOver(at) && (AllFit(cfg) ==> FlowsWell(at))
    ensures at.Flowing? ==> at.st == Greet(0, 0)
  {
    var e := SEffect(NewSender(cfg.manifest), Greeting(cfg.manifest, cfg.folder));
    TransmittedCases(cfg.json, e);
    if AllEncodable(cfg.json, e.out) {
      at := Flowing(Greet(0, 0));
      GreetedIsGreet(cfg);
      IsBounded(cfg, Greeted(cfg), Greet(0, 0));
      StartFits(cfg);
      hide At, Greeting, Bounded, Scanned, AllFit, Transmitted, Rest, OpeningLength, AnswerLength;
    } else {
      at := SenderCut;
      hide Transmitted, AllEncodable, Rest, AllFit, AnswerLength, Greeting;
      var m :| 0 <= m < |e.out| && Transmitted(cfg.json, e).out == e.out[..m];
      GreetingIsExpected(cfg, m);
      hide Expects, OpeningLength;
      NotAllFit(cfg);
    }
  }

  lemma StartFits(cfg: Config)
    requires OpeningFits(cfg) && Bounded(cfg, Greet(0, 0))
    ensures Fit(cfg, Greet(0, 0))
  {
  }

  lemma NotAllFit(cfg: Config)
    ensures AllFit(cfg) ==> AllEncodable(cfg.json, Greeting(cfg.manifest, cfg.folder))
  {
  }

  /** How many moves a run can have: every opening frame and answer once, every planned file at most twice, and
      the closing. */
  ghost function RunBound(cfg: Config): nat {
    Rest(cfg, 0) + 1 + OpeningLength(cfg) + AnswerLength(cfg)
  }

  lemma {:induction false} RunReaches(cfg: Config, sys: System, at: Standing, moves: seq<Move>) returns (to: Standing)
    requires Scanned(cfg) && Over(cfg, sys, at) && Legal(cfg, sys, moves)
    ensures Over(cfg, RunOf(cfg, sys, moves), to)
    ensures |moves| + Weight(cfg, RunOf(cfg, sys, moves), to) <= Weight(cfg, sys, at)
    ensures AllCalm(moves) && SafeNames(cfg) ==>
              (WellOrOver(at) ==> WellOrOver(to)) && (AllFit(cfg) && FlowsWell(at) ==> FlowsWell(to))
    decreases |moves|
  {
    hide Over, Turn, Enabled, Weight, Scanned, WellOrOver, FlowsWell, SafeNames, AllFit, Calm;
    if moves == [] {
      to := at;
    } else {
      var next := TurnLeads(cfg, sys, at, moves[0]);
      to := RunReaches(cfg, Turn(cfg, sys, moves[0]), next, moves[1..]);
      if AllCalm(moves) {
        assert moves[0].SenderMove? || Calm(moves[0].w);
        assert AllCalm(moves[1..]);
      }
    }
  }

  lemma StandingMoves(cfg: Config, sys: System, at: Standing)
    requires Over(cfg, sys, at)
    ensures sys.s.phase.SBroken? ==> Foreseen(sys.s.phase.error)
    ensures sys.r.phase.Broken? ==> Foreseen(sys.r.phase.error)
    ensures Ended(sys) || CanReceive(sys) || CanSend(sys)
    ensures Ended(sys) ==> (at.Flowing? && at.st.Succeeded?) || at == Flowing(FailedBoth)
    ensures Ended(sys) && at.Flowing? && at.st.Succeeded? ==> AtSuccess(cfg, sys, at.st.stuck)
    ensures at == Flowing(FailedBoth) ==> sys.s.phase.SBroken? && sys.r.phase.Broken?
  {
    match at {
      case Flowing(st) =>
        AtIsForeseen(cfg, sys, st);
        Movable(cfg, sys, st);
        if Ended(sys) {
          EndStages(cfg, sys, st);
        }
        hide AtGreet, AtSending, AtJudged, AtClose, AtDropped, AtSuccess, AtGivenUp, Closing, Bounded, Foreseen,
             CanReceive, CanSend, Fit;
      case SenderCut =>
        hide Tidy;
      case ReceiverCut =>
    }
  }

  // ---- what every run does ------------------------------------------------------------------------------------------

  /** In every run, whatever the file system refuses and whatever does not encode: neither side ever fails on a frame it
      did not expect; the run is never stuck, because until both sides are done one of them can move; and it is
      finite. */
  lemma SyncNeverSticks(cfg: Config, moves: seq<Move>)
    requires Scanned(cfg) && Legal(cfg, Start(cfg), moves)
    ensures var t := RunOf(cfg, Start(cfg), moves);
            && (t.s.phase.SBroken? ==> Foreseen(t.s.phase.error))
            && (t.r.phase.Broken? ==> Foreseen(t.r.phase.error))
            && (Ended(t) || CanReceive(t) || CanSend(t))
    ensures |moves| <= RunBound(cfg)
  {
    hide *;
    var at := StartStands(cfg);
    var to := RunReaches(cfg, Start(cfg), at, moves);
    StandingMoves(cfg, RunOf(cfg, Start(cfg), moves), to);
  }

  /** Both sides succeed together or fail together. */
  lemma SyncEndsTogether(cfg: Config, moves: seq<Move>)
    requires Scanned(cfg) && Legal(cfg, Start(cfg), moves) && Ended(RunOf(cfg, Start(cfg), moves))
    ensures var t := RunOf(cfg, Start(cfg), moves);
            t.s.phase.SentAll? <==> t.r.phase.Finished?
  {
    var t := RunOf(cfg, Start(cfg), moves);
    var stuck := EndOf(cfg, moves);
    hide Legal, RunOf, Scanned, AtSuccess, Fit;
    if stuck.Some? {
      SuccessMeans(cfg, t, stuck.value);
    }
  }

  /** How a run that has ended ended. */
  lemma EndOf(cfg: Config, moves: seq<Move>) returns (stuck: Option<set<string>>)
    requires Scanned(cfg) && Legal(cfg, Start(cfg), moves) && Ended(RunOf(cfg, Start(cfg), moves))
    ensures var t := RunOf(cfg, Start(cfg), moves);
            if stuck.Some? then AtSuccess(cfg, t, stuck.value) && Fit(cfg, Succeeded(stuck.value))
            else t.s.phase.SBroken? && t.r.phase.Broken?
    ensures AllCalm(moves) && SafeNames(cfg) && stuck.Some? ==> stuck.value == {}
    ensures AllCalm(moves) && SafeNames(cfg) && AllFit(cfg) ==> stuck.Some?
  {
    hide Legal, RunOf, Scanned, AtSuccess, Fit, At, Bounded, Rank, Start, AllCalm, SafeNames, AllFit, Expects, Idle,
         Foreseen, CanSend, CanReceive, Ended, RunBound;
    var at := StartStands(cfg);
    var to := RunReaches(cfg, Start(cfg), at, moves);
    StandingMoves(cfg, RunOf(cfg, Start(cfg), moves), to);
    stuck := if to == Flowing(FailedBoth) then None else Some(to.st.stuck);
  }

  lemma SuccessMeans(cfg: Config, sys: System, stuck: set<string>)
    requires AtSuccess(cfg, sys, stuck)
    ensures sys.s.phase.SentAll? && sys.r.phase.Finished? && SafeNames(cfg) && Mirrored(cfg, sys.r.fs, stuck)
    ensures sys.s.summary.filesSent == sys.r.summary.filesSent == |Plan(cfg)|
    ensures sys.s.summary.bytes == sys.r.summary.bytes
    ensures sys.s.summary.deleted == sys.r.summary.deleted == DeletedCount(cfg, stuck)
    ensures sys.s.summary.filesSent + sys.s.summary.skipped == |cfg.manifest|
  {
    hide Plan, Deletes, BytesOf, Engine, Mirrored, SafeSource, AllAccepted, DeletedCount;
  }

  /** Exact: when the file system refuses nothing, a run that has ended succeeded if and only if every source path, and
      every path the destination holds and the source does not, is one the receiver accepts, and every frame either side
      has to say encodes. */
  lemma CalmRunSucceedsIff(cfg: Config, moves: seq<Move>)
    requires Scanned(cfg) && Legal(cfg, Start(cfg), moves) && AllCalm(moves) && Ended(RunOf(cfg, Start(cfg), moves))
    ensures RunOf(cfg, Start(cfg), moves).r.phase.Finished? <==> SafeNames(cfg) && AllFit(cfg)
    ensures SafeNames(cfg) && AllFit(cfg) ==> Mirrored(cfg, RunOf(cfg, Start(cfg), moves).r.fs, {})
  {
    var t := RunOf(cfg, Start(cfg), moves);
    var stuck := EndOf(cfg, moves);
    hide *;
    FitAtTheEnd(cfg);
    if stuck.Some? {
      SuccessMeans(cfg, t, stuck.value);
    }
  }

  lemma FitAtTheEnd(cfg: Config)
    ensures Bounded(cfg, Succeeded({})) && (Fit(cfg, Succeeded({})) <==> AllFit(cfg))
  {
    hide FitUpTo, ClosingFits, ReceiptFits;
  }

  /** Whatever the file system refused: after a success every real path of the destination is settled, and both
      sides report the same counts, which add up to the source. */
  lemma SuccessMirrors(cfg: Config, moves: seq<Move>) returns (stuck: set<string>)
    requires Scanned(cfg) && Legal(cfg, Start(cfg), moves) && Ended(RunOf(cfg, Start(cfg), moves))
    requires RunOf(cfg, Start(cfg), moves).r.phase.Finished?
    ensures var t := RunOf(cfg, Start(cfg), moves);
            && t.s.phase.SentAll? && Mirrored(cfg, t.r.fs, stuck) && SafeNames(cfg)
            && t.s.summary.filesSent == t.r.summary.filesSent == |Plan(cfg)|
            && t.s.summary.bytes == t.r.summary.bytes
            && t.s.summary.deleted == t.r.summary.deleted == DeletedCount(cfg, stuck)
            && t.s.summary.filesSent + t.s.summary.skipped == |cfg.manifest|
    ensures AllCalm(moves) ==> stuck == {}
  {
    var end := EndOf(cfg, moves);
    hide *;
    stuck := end.value;
    SuccessMeans(cfg, RunOf(cfg, Start(cfg), moves), stuck);
  }

  // ---- each file at most twice --------------------------------------------------------------------------------------

  /** What the sender says in one turn. */
  ghost function Said(cfg: Config, sys: System, move: Move): seq<Frame>
    requires Enabled(sys, move)
  {
    if move.SenderMove? then Transmitted(cfg.json, SenderEffect(cfg, sys)).out else []
  }

  /** How often the sender begins the file of this path in a run. */
  ghost function Starts(cfg: Config, sys: System, moves: seq<Move>, path: string): nat
    requires Legal(cfg, sys, moves)
    decreases |moves|
  {
    if moves == [] then 0
    else Begins(Said(cfg, sys, moves[0]), path) + Starts(cfg, Turn(cfg, sys, moves[0]), moves[1..], path)
  }

  /** The path is that of the `n`-th planned file, or of none. */
  ghost predicate IsPlanned(cfg: Config, path: string, n: nat) {
    if n < |Plan(cfg)| then Plan(cfg)[n].path == path else path !in PathsOf(Plan(cfg))
  }

  /** How often the file may still be begun. */
  ghost function Budget(cfg: Config, at: Standing, n: nat): nat {
    if n >= |Plan(cfg)| then 0
    else
      match at
      case Flowing(Greet(_, _)) => 2
      case Flowing(Sending(m, again, _)) => if m < n then 2 else if m == n && !again then 1 else 0
      case Flowing(Judged(m, again, ok)) => if m < n then 2 else if m == n && !again && !ok then 1 else 0
      case _ => 0
  }

  lemma BeginsIn(cfg: Config, to: Stage, path: string, n: nat)
    requires Scanned(cfg) && Bounded(cfg, to) && IsPlanned(cfg, path, n)
    ensures Begins(SaidIn(cfg, to), path) == if to.Sending? && to.n == n then 1 else 0
  {
    if to.Sending? {
      BeginsInFile(cfg, to.n, path);
      if path == Plan(cfg)[to.n].path && n < |Plan(cfg)| {
        PlanTellsApart(cfg, to.n, n);
      }
      hide FramesOf, Plan, Scanned, Begins;
    } else if to.Close? {
      BeginsInClosing(cfg, path);
      hide Closing, Plan, Scanned, Begins;
    }
  }

  lemma StageSpends(cfg: Config, st: Stage, to: Stage, n: nat)
    requires !Failing(st) && SenderFollows(cfg, st, to) && Bounded(cfg, to)
    ensures (if to.Sending? && to.n == n then 1 else 0) + Budget(cfg, Flowing(to), n) <= Budget(cfg, Flowing(st), n)
  {
    hide Plan, AnswerLength, FramesOf, Closing, OpeningLength;
  }

  lemma SomeSaid(frames: seq<Frame>, m: nat, path: string)
    requires m <= |frames|
    ensures Begins(frames[..m], path) <= Begins(frames, path)
  {
    assert frames[..m] + frames[m..] == frames;
    BeginsConcat(frames[..m], frames[m..], path);
  }

  /** A turn says no more than the move would. */
  lemma TurnSaysLess(cfg: Config, sys: System, path: string)
    requires CanSend(sys)
    ensures Begins(Said(cfg, sys, SenderMove), path) <= Begins(SenderEffect(cfg, sys).out, path)
  {
    var e := SenderEffect(cfg, sys);
    hide SenderEffect, Begins, SendableCount;
    SomeSaid(e.out, SendableCount(cfg.json, e.out), path);
  }

  lemma FailingSaysNone(cfg: Config, sys: System, st: Stage, to: Stage, path: string)
    requires At(cfg, sys, st) && CanSend(sys) && At(cfg, SenderMoved(cfg, sys), to) && SenderFollows(cfg, st, to)
    requires Failing(to) || Failing(st)
    ensures Begins(SenderEffect(cfg, sys).out, path) == 0
  {
    if st.Dropped? {
      DroppedSaysNone(cfg, sys, st.hello, st.aborted, path);
    } else {
      SenderAppends(cfg, sys);
      ToReceiverIs(cfg, sys, st);
      GivenUpSaysNone(cfg, sys, st, to, path);
    }
  }

  lemma DroppedSaysNone(cfg: Config, sys: System, hello: bool, aborted: bool, path: string)
    requires AtDropped(cfg, sys, hello, aborted) && CanSend(sys)
    ensures Begins(SenderEffect(cfg, sys).out, path) == 0
  {
    hide SendFile, Diffed;
    if aborted {
      assert sys.toS[|sys.toS| - 1].Abort?;
    }
  }

  lemma GivenUpSaysNone(cfg: Config, sys: System, st: Stage, to: Stage, path: string)
    requires InPlan(sys.s) && Bounded(cfg, st) && sys.toR == ToReceiver(cfg, st) && At(cfg, SenderMoved(cfg, sys), to)
    requires !Failing(st) && Failing(to) && SenderFollows(cfg, st, to)
    requires SenderMoved(cfg, sys).toR == sys.toR + SenderEffect(cfg, sys).out
    ensures Begins(SenderEffect(cfg, sys).out, path) == 0
  {
    var out := SenderEffect(cfg, sys).out;
    GivesUp(cfg, sys, SenderMoved(cfg, sys), st, to);
    hide *;
    assert out == [] + out;
    NoBegins(out, path) by { AbortBeginsNothing(out, path); }
  }

  lemma AbortBeginsNothing(out: seq<Frame>, path: string)
    requires |out| == 1 && out[0].Control? && out[0].c.Abort?
    ensures forall k :: 0 <= k < |out| ==> !IsBegin(out[k], path)
  {
  }

  lemma GivesUp(cfg: Config, sys: System, moved: System, st: Stage, to: Stage)
    requires Bounded(cfg, st) && sys.toR == ToReceiver(cfg, st) && At(cfg, moved, to)
    requires !Failing(st) && Failing(to) && SenderFollows(cfg, st, to)
    ensures sys.toR == [] && |moved.toR| == 1 && moved.toR[0].Control? && moved.toR[0].c.Abort?
  {
    hide AtDropped, AtFailure, Plan, Closing, FramesOf, AnswerLength, OpeningLength, NextStage, Greeting;
    assert st.Judged? && to.GivenUp? by {
      NextIsNotFailing(cfg, 0);
      if st.Judged? && st.ok {
        NextIsNotFailing(cfg, st.n + 1);
      }
    }
  }

  lemma NextIsNotFailing(cfg: Config, n: nat)
    ensures !Failing(NextStage(cfg, n))
  {
    hide Plan;
  }

  lemma TurnSpends(cfg: Config, sys: System, st: Stage, next: Standing, to: Stage, path: string, n: nat)
    requires Scanned(cfg) && Over(cfg, sys, Flowing(st)) && CanSend(sys) && IsPlanned(cfg, path, n)
    requires At(cfg, SenderMoved(cfg, sys), to) && SenderFollows(cfg, st, to)
    requires next == Flowing(to) || !next.Flowing? || next.st == FailedBoth
    ensures Begins(Said(cfg, sys, SenderMove), path) + Budget(cfg, next, n) <= Budget(cfg, Flowing(st), n)
  {
    hide At, Said, SenderEffect, SenderMoved, Begins, Scanned, Plan, IsPlanned, SenderFollows, CanSend, Fit, Bounded;
    TurnSaysLess(cfg, sys, path);
    SpeakingStages(cfg, sys, st, to);
    if Failing(to) || Failing(st) {
      FailingSaysNone(cfg, sys, st, to, path);
    } else {
      SenderSays(cfg, sys, st, to);
      BeginsIn(cfg, to, path, n);
      StageSpends(cfg, st, to, n);
    }
  }

  lemma ReceiverSpends(cfg: Config, st: Stage, next: Standing, n: nat)
    requires next.Flowing? ==> ReceiverFollows(cfg, st, next.st) || next.st == FailedBoth
    ensures Budget(cfg, next, n) <= Budget(cfg, Flowing(st), n)
  {
    hide Plan;
  }

  /** What a turn says and what may still be said stay within what might have been said before it. */
  lemma AnyTurnSpends(cfg: Config, sys: System, at: Standing, move: Move, path: string, n: nat) returns (next: Standing)
    requires Scanned(cfg) && Over(cfg, sys, at) && Enabled(sys, move) && IsPlanned(cfg, path, n)
    ensures Over(cfg, Turn(cfg, sys, move), next)
    ensures Begins(Said(cfg, sys, move), path) + Budget(cfg, next, n) <= Budget(cfg, at, n)
  {
    hide At, Bounded, Fit, Rank, SenderTurn, ReceiverTurn, Expects, Idle, Foreseen, KeepsWell, Scanned, SenderEffect,
         IsPlanned, Plan, SenderFollows, ReceiverFollows, SenderMoved;
    match at {
      case Flowing(st) =>
        if move.SenderMove? {
          var to;
          next, to := SenderTurnLeads(cfg, sys, st);
          TurnSpends(cfg, sys, st, next, to, path, n);
          hide Said, Budget;
        } else {
          next := ReceiverTurnLeads(cfg, sys, st, move.w);
          ReceiverSpends(cfg, st, next, n);
          hide Budget;
        }
      case SenderCut =>
        next := CutReceiverTurn(cfg, sys, move.w);
      case ReceiverCut =>
        next := CutSenderTurn(cfg, sys);
        assert SendableCount(cfg.json, []) == 0;
    }
  }

  lemma {:induction false} RunSpends(cfg: Config, sys: System, at: Standing, moves: seq<Move>, path: string, n: nat)
    requires Scanned(cfg) && Over(cfg, sys, at) && Legal(cfg, sys, moves) && IsPlanned(cfg, path, n)
    ensures Starts(cfg, sys, moves, path) <= Budget(cfg, at, n)
    decreases |moves|
  {
    hide Over, Turn, Enabled, Scanned, Budget, Said, Begins, IsPlanned;
    if moves == [] {
    } else {
      var next := AnyTurnSpends(cfg, sys, at, moves[0], path, n);
      RunSpends(cfg, Turn(cfg, sys, moves[0]), next, moves[1..], path, n);
    }
  }

  lemma WherePlanned(cfg: Config, path: string) returns (n: nat)
    ensures IsPlanned(cfg, path, n)
    ensures n < |Plan(cfg)| <==> path in PathsOf(Plan(cfg))
  {
    hide Plan;
    if path in PathsOf(Plan(cfg)) {
      n :| 0 <= n < |Plan(cfg)| && Plan(cfg)[n].path == path;
    } else {
      n := |Plan(cfg)|;
    }
  }

  /** In every run, whatever the receiver's file system refuses and whatever does not encode: each planned file is begun
      at most twice, and no other file ever. */
  lemma EachFileAtMostTwice(cfg: Config, moves: seq<Move>, path: string)
    requires Scanned(cfg) && Legal(cfg, Start(cfg), moves)
    ensures Starts(cfg, Start(cfg), moves, path) <= if path in PathsOf(Plan(cfg)) then 2 else 0
  {
    hide Over, Legal, Scanned, Start, Starts, Plan, IsPlanned, Weight, AllFit, RunBound, PathsOf;
    var n := WherePlanned(cfg, path);
    var at := StartStands(cfg);
    RunSpends(cfg, Start(cfg), at, moves, path, n);
  }

  // ---- what a run leaves behind -------------------------------------------------------------------------------------

  /** After a success every real source path holds bytes of the source's hash at the destination. */
  lemma SuccessDelivers(cfg: Config, moves: seq<Move>, k: nat)
    requires Scanned(cfg) && Legal(cfg, Start(cfg), moves) && Ended(RunOf(cfg, Start(cfg), moves))
    requires RunOf(cfg, Start(cfg), moves).r.phase.Finished? && k < |cfg.manifest| && !IsPart(cfg.manifest[k].path)
    ensures var fs, e := RunOf(cfg, Start(cfg), moves).r.fs, cfg.manifest[k];
            e.path in fs && cfg.h(fs[e.path]) == e.hash
  {
    hide *;
    var stuck := SuccessMirrors(cfg, moves);
    SourceArrives(cfg, RunOf(cfg, Start(cfg), moves).r.fs, stuck, k);
  }

  /** After a success any other real path is as it was, or it is gone: never unless deletion was asked for, and always
      when it was and the file system refused nothing. */
  lemma SuccessSpares(cfg: Config, moves: seq<Move>, p: string)
    requires Scanned(cfg) && Legal(cfg, Start(cfg), moves) && Ended(RunOf(cfg, Start(cfg), moves))
    requires RunOf(cfg, Start(cfg), moves).r.phase.Finished? && !IsPart(p) && p !in PathsOf(cfg.manifest)
    ensures var fs := RunOf(cfg, Start(cfg), moves).r.fs;
            && (p in fs ==> p in cfg.dest && fs[p] == cfg.dest[p])
            && (p in cfg.dest && p !in fs ==> Prunes(cfg))
            && (AllCalm(moves) ==> (p in fs <==> p in cfg.dest && !Prunes(cfg)))
  {
    hide *;
    var stuck := SuccessMirrors(cfg, moves);
    OthersStay(cfg, RunOf(cfg, Start(cfg), moves).r.fs, stuck, p);
  }

  /** When the file system refuses nothing, a sync of accepted names and encodable frames that prunes, under a hash that
      tells contents apart, leaves exactly the source. */
  lemma CalmRunMirrors(cfg: Config, moves: seq<Move>)
    requires Scanned(cfg) && Legal(cfg, Start(cfg), moves) && AllCalm(moves) && Ended(RunOf(cfg, Start(cfg), moves))
    requires SafeNames(cfg) && AllFit(cfg) && NoPartNames(cfg) && Prunes(cfg)
    requires forall a, b: seq<Byte> :: cfg.h(a) == cfg.h(b) ==> a == b
    ensures Real(RunOf(cfg, Start(cfg), moves).r.fs) == SourceFiles(cfg)
  {
    hide *;
    CalmRunSucceedsIff(cfg, moves);
    MirrorIsExact(cfg, RunOf(cfg, Start(cfg), moves).r.fs);
  }

  /** The same sync over what a run left. */
  ghost function Again(cfg: Config, moves: seq<Move>): Config
    requires Legal(cfg, Start(cfg), moves)
  {
    cfg.(dest := RunOf(cfg, Start(cfg), moves).r.fs)
  }

  lemma StillScanned(cfg: Config, fs: Files)
    requires Scanned(cfg)
    ensures Scanned(cfg.(dest := fs))
  {
    hide Content, Accepted, Split, DistinctKeys;
  }

  /** Exact: a success followed by a success over what it left sends no file if and only if no source name looks like a
      part file; then no file is ever begun, everything is skipped, and no byte travels. */
  lemma SecondRunSendsNothingIff(cfg: Config, moves: seq<Move>, again: seq<Move>)
    requires Scanned(cfg) && Legal(cfg, Start(cfg), moves) && Ended(RunOf(cfg, Start(cfg), moves))
    requires RunOf(cfg, Start(cfg), moves).r.phase.Finished?
    requires var c := Again(cfg, moves);
             && Legal(c, Start(c), again) && Ended(RunOf(c, Start(c), again))
             && RunOf(c, Start(c), again).r.phase.Finished?
    ensures var c := Again(cfg, moves);
            var t := RunOf(c, Start(c), again);
            && (t.s.summary.filesSent == 0 <==> NoPartNames(cfg))
            && (NoPartNames(cfg) ==>
                  t.s.summary.skipped == |cfg.manifest| && forall path :: Starts(c, Start(c), again, path) == 0)
  {
    var c, fs := Again(cfg, moves), RunOf(cfg, Start(cfg), moves).r.fs;
    hide *;
    assert c == cfg.(dest := fs) by { AgainIs(cfg, moves); }
    StillScanned(cfg, fs);
    var stuck := SuccessMirrors(cfg, moves);
    RerunIsIdleIff(cfg, fs, stuck);
    var stuckAgain := SuccessMirrors(c, again);
    if NoPartNames(cfg) {
      forall path
        ensures Starts(c, Start(c), again, path) == 0
      {
        EachFileAtMostTwice(c, again, path);
        NothingPlanned(c, path);
      }
    }
  }

  lemma AgainIs(cfg: Config, moves: seq<Move>)
    requires Legal(cfg, Start(cfg), moves)
    ensures Again(cfg, moves) == cfg.(dest := RunOf(cfg, Start(cfg), moves).r.fs)
  {
  }

  lemma NothingPlanned(cfg: Config, path: string)
    requires Plan(cfg) == []
    ensures path !in PathsOf(Plan(cfg))
  {
  }

  /** Syncing is idempotent: when the first run met a file system that refused nothing, a second one over what it left
      deletes nothing and leaves every real file as it is, provided no source name looks like a part file. */
  lemma SecondRunChangesNothing(cfg: Config, moves: seq<Move>, again: seq<Move>)
    requires Scanned(cfg) && Legal(cfg, Start(cfg), moves) && Ended(RunOf(cfg, Start(cfg), moves)) && AllCalm(moves)
    requires RunOf(cfg, Start(cfg), moves).r.phase.Finished? && NoPartNames(cfg)
    requires var c := Again(cfg, moves);
             && Legal(c, Start(c), again) && Ended(RunOf(c, Start(c), again))
             && RunOf(c, Start(c), again).r.phase.Finished?
    ensures var c := Again(cfg, moves);
            var t := RunOf(c, Start(c), again);
            && Real(t.r.fs) == Real(c.dest)
            && (Prunes(cfg) ==> t.s.summary.deleted == 0)
  {
    var c, fs := Again(cfg, moves), RunOf(cfg, Start(cfg), moves).r.fs;
    hide *;
    assert c == cfg.(dest := fs) by { AgainIs(cfg, moves); }
    StillScanned(cfg, fs);
    var stuck := SuccessMirrors(cfg, moves);
    RerunIsIdleIff(cfg, fs, stuck);
    var stuckAgain := SuccessMirrors(c, again);
    if Prunes(cfg) {
      SecondRunDeletesNothing(cfg, fs);
      NothingDeleted(c, stuckAgain);
    } else {
      PrunesLater(cfg, fs);
    }
    IdleLeavesAll(c, RunOf(c, Start(c), again).r.fs, stuckAgain);
  }

  lemma NothingDeleted(cfg: Config, stuck: set<string>)
    requires Deletes(cfg) == []
    ensures DeletedCount(cfg, stuck) == 0
  {
    hide Deletes;
  }

  /** A sync that does not prune does not prune a second time either. */
  lemma PrunesLater(cfg: Config, fs: Files)
    requires !Prunes(cfg)
    ensures !Prunes(cfg.(dest := fs)) || Deletes(cfg.(dest := fs)) == []
  {
    var again := cfg.(dest := fs);
    if Held(again) == [] {
      assert Deletes(again) == [];
    }
    hide Held, Deletes;
  }

  lemma IdleLeavesAll(cfg: Config, fs: Files, stuck: set<string>)
    requires Mirrored(cfg, fs, stuck) && Plan(cfg) == [] && (!Prunes(cfg) || Deletes(cfg) == [])
    ensures Real(fs) == Real(cfg.dest)
  {
    hide Mirrored, Plan, Deletes, Prunes, IsPart, Content;
    forall p: string | !IsPart(p)
      ensures p in fs <==> p in cfg.dest
      ensures p in fs ==> fs[p] == cfg.dest[p]
    {
      SettledOf(cfg, fs, stuck, p);
    }
  }

  lemma SettledOf(cfg: Config, fs: Files, stuck: set<string>, p: string)
    requires Mirrored(cfg, fs, stuck) && !IsPart(p) && Plan(cfg) == [] && (!Prunes(cfg) || Deletes(cfg) == [])
    ensures p in fs <==> p in cfg.dest
    ensures p in fs ==> fs[p] == cfg.dest[p]
  {
    hide Plan, Deletes, Prunes, IsPart, Content;
    assert Settled(cfg, fs, stuck, p);
    assert p !in PathsOf(Plan(cfg)[..0]);
  }
}
