/** `Resume` beside the relay itself: the checkpoint of a run is the relay's, and a reconnecting sender resumes at what
    its join was answered with. */
module RelayedResumes {
  import opened Bytes
  import opened Wrappers
  import opened SenderAdapters
  import opened ReceiveLoops
  import opened Resume
  import R = Relay
  import V = ResumeVerdicts

  datatype Joint = Joint(w: World, h: seq<R.Event>)

  /** A step of the peers the relay does not see, an acknowledgement that reaches it, the sender's re-join after a cut,
      the loss of a recipient's socket, or anything else the relay sees. */
  datatype Move =
    | Unseen(step: Step)
    | Acknowledge
    | Rejoin(sid: string, salt: seq<Byte>, baseIv: seq<Byte>)
    | Lose(sid: string, restarts: bool)
    | Aside(e: R.Event)

  ghost predicate IsRecipient(h: seq<R.Event>, sid: string) {
    exists i: nat :: R.RegisteredAt(h, i, sid, R.RECIPIENT)
  }

  ghost predicate Possible(j: Joint, m: Move) {
    match m
    case Unseen(step) => (step.TakeData? || step.SenderAck? || step.LoseAcks?) && Enabled(j.w, step)
    case Acknowledge => Enabled(j.w, RelayAck)
    case Rejoin(_, salt, baseIv) => Enabled(j.w, Reconnect(salt, baseIv))
    case Lose(sid, restarts) => Enabled(j.w, RecipientDrops(restarts)) && IsRecipient(j.h, sid)
    case Aside(e) =>
      match e
      case Join(_, _) => true
      case AckSeen(through) => through.None?
      case Disconnect(sid) => !IsRecipient(j.h, sid)
  }

  /** The answer to a sender that joins now. */
  ghost function Told(h: seq<R.Event>, sid: string): (a: R.Emission)
    ensures R.Answers(h, R.SENDER, a)
  {
    var more := h + [R.Join(sid, R.SENDER)];
    assert more[..|h|] == h;
    R.JoinIsAnswered(more, |h|);
    R.EmittedAt(more, |h|)[0]
  }

  ghost function Take(tr: Transfer, j: Joint, m: Move): Joint
    requires tr.Valid() && Possible(j, m)
  {
    match m
    case Unseen(step) => j.(w := Apply(tr, j.w, step))
    case Acknowledge => Joint(Apply(tr, j.w, RelayAck), j.h + [R.AckSeen(Some(j.w.toRelay[0]))])
    case Rejoin(sid, salt, baseIv) =>
      var resume := Told(j.h, sid).lastChunkOffset;
      Joint(Reconnected(tr, j.w.(checkpoint := resume), salt, baseIv), j.h + [R.Join(sid, R.SENDER)])
    case Lose(sid, restarts) => Joint(Apply(tr, j.w, RecipientDrops(restarts)), j.h + [R.Disconnect(sid)])
    case Aside(e) => j.(h := j.h + [e])
  }

  ghost predicate CanTake(tr: Transfer, j: Joint, moves: seq<Move>)
    requires tr.Valid()
    decreases |moves|
  {
    moves == [] || (Possible(j, moves[0]) && CanTake(tr, Take(tr, j, moves[0]), moves[1..]))
  }

  ghost function TakeAll(tr: Transfer, j: Joint, moves: seq<Move>): Joint
    requires tr.Valid() && CanTake(tr, j, moves)
    decreases |moves|
  {
    if moves == [] then j else TakeAll(tr, Take(tr, j, moves[0]), moves[1..])
  }

  // ---- the two agree -----------------------------------------------------------------------------------------

  predicate Agrees(j: Joint) {
    R.After(j.h).lastChunkOffset == j.w.checkpoint
  }

  /** The step of the peers that a move is, if it is one. */
  function StepOf(m: Move): Option<Step> {
    match m
    case Unseen(step) => Some(step)
    case Acknowledge => Some(RelayAck)
    case Rejoin(_, salt, baseIv) => Some(Reconnect(salt, baseIv))
    case Lose(_, restarts) => Some(RecipientDrops(restarts))
    case Aside(_) => None
  }

  lemma AfterMore(h: seq<R.Event>, e: R.Event)
    ensures R.After(h + [e]) == R.Step(R.After(h), e)
  {
    assert (h + [e])[..|h|] == h;
  }

  lemma RecipientIs(h: seq<R.Event>, sid: string)
    ensures IsRecipient(h, sid) <==> sid in R.After(h).roles && R.After(h).roles[sid] == R.RECIPIENT
  {
    R.RolesMean(h, sid, R.RECIPIENT);
  }

  lemma ToldCheckpoint(h: seq<R.Event>, sid: string)
    ensures Told(h, sid).lastChunkOffset == R.After(h).lastChunkOffset
  {
    assert (h + [R.Join(sid, R.SENDER)])[..|h|] == h;
  }

  lemma UnseenKeepsCheckpoint(tr: Transfer, w: World, step: Step)
    requires tr.Valid() && Enabled(w, step) && (step.TakeData? || step.SenderAck? || step.LoseAcks?)
    ensures Apply(tr, w, step).checkpoint == w.checkpoint
  {
    hide Announced, AfterBinary, BinaryOutputs, Emit;
  }

  lemma CheckpointsOfRelay(tr: Transfer, w: World, r: R.RelayState)
    requires tr.Valid() && r.lastChunkOffset == w.checkpoint
    ensures Enabled(w, RelayAck) ==>
              R.Step(r, R.AckSeen(Some(w.toRelay[0]))).lastChunkOffset == Apply(tr, w, RelayAck).checkpoint
    ensures forall restarts :: Enabled(w, RecipientDrops(restarts)) ==>
              Apply(tr, w, RecipientDrops(restarts)).checkpoint == 0
  {
  }

  lemma CheckpointOfQuiet(r: R.RelayState, e: R.Event)
    requires e.AckSeen? ==> e.through.None?
    ensures R.Step(r, e).lastChunkOffset
            == if e.Disconnect? && e.sid in r.roles && r.roles[e.sid] == R.RECIPIENT then 0 else r.lastChunkOffset
  {
  }

  lemma SeenAgrees(tr: Transfer, j: Joint, m: Move)
    requires tr.Valid() && Agrees(j) && Possible(j, m) && (m.Acknowledge? || m.Lose? || m.Aside?)
    ensures Agrees(Take(tr, j, m))
  {
    CheckpointsOfRelay(tr, j.w, R.After(j.h));
    var e := match m case Acknowledge => R.AckSeen(Some(j.w.toRelay[0]))
                     case Lose(sid, _) => R.Disconnect(sid)
                     case Aside(e) => e;
    AfterMore(j.h, e);
    if e.Disconnect? {
      RecipientIs(j.h, e.sid);
    }
    if !m.Acknowledge? {
      CheckpointOfQuiet(R.After(j.h), e);
    }
    hide IsRecipient, Apply, R.Step, Enabled;
  }

  lemma RejoinAgrees(tr: Transfer, j: Joint, sid: string, salt: seq<Byte>, baseIv: seq<Byte>)
    requires tr.Valid() && Agrees(j) && Possible(j, Rejoin(sid, salt, baseIv))
    ensures var k := Take(tr, j, Rejoin(sid, salt, baseIv));
            Agrees(k) && k.w == Reconnected(tr, j.w, salt, baseIv)
  {
    AfterMore(j.h, R.Join(sid, R.SENDER));
    CheckpointOfQuiet(R.After(j.h), R.Join(sid, R.SENDER));
    ToldCheckpoint(j.h, sid);
    hide Told, R.Step, Emit;
    assert j.w.(checkpoint := j.w.checkpoint) == j.w;
  }

  /** A move keeps the agreement, and is the step of the peers that it stands for: in particular the sender resumes
      where `Resume` says. */
  lemma MoveAgrees(tr: Transfer, j: Joint, m: Move)
    requires tr.Valid() && Agrees(j) && Possible(j, m)
    ensures Agrees(Take(tr, j, m))
    ensures match StepOf(m)
            case Some(step) => Enabled(j.w, step) && Take(tr, j, m).w == Apply(tr, j.w, step)
            case None => Take(tr, j, m).w == j.w
  {
    match m {
      case Unseen(step) => UnseenKeepsCheckpoint(tr, j.w, step);
      case Rejoin(sid, salt, baseIv) =>
        RejoinAgrees(tr, j, sid, salt, baseIv);
        assert Apply(tr, j.w, Reconnect(salt, baseIv)) == Reconnected(tr, j.w, salt, baseIv);
        hide Take, Agrees;
      case _ =>
        SeenAgrees(tr, j, m);
        hide Agrees, IsRecipient;
    }
    hide Apply, Reconnected, Told, Enabled;
  }

  /** Over every joint run the relay's checkpoint is the one the peers' run is told, and that run is one of `Resume`. */
  lemma {:induction false} RunAgrees(tr: Transfer, j: Joint, moves: seq<Move>) returns (steps: seq<Step>)
    requires tr.Valid() && Agrees(j) && CanTake(tr, j, moves)
    ensures CanRun(tr, j.w, steps) && Run(tr, j.w, steps) == TakeAll(tr, j, moves).w
    ensures Agrees(TakeAll(tr, j, moves))
    decreases |moves|
  {
    hide Take, Possible, Apply, Enabled, Agrees;
    if moves == [] {
      steps := [];
    } else {
      MoveAgrees(tr, j, moves[0]);
      var rest := RunAgrees(tr, Take(tr, j, moves[0]), moves[1..]);
      match StepOf(moves[0]) {
        case None => steps := rest;
        case Some(step) =>
          steps := [step] + rest;
          assert steps[1..] == rest;
      }
    }
  }

  /** Resume points are acknowledgements: in every joint run a sender that re-joins opens the new channel with the
      largest acknowledgement the relay has seen since a recipient last dropped, or with zero if there is none. */
  lemma ReconnectResumesAtLargestAck(tr: Transfer, salt: seq<Byte>, baseIv: seq<Byte>, moves: seq<Move>,
                                     sid: string, newSalt: seq<Byte>, newIv: seq<Byte>)
    returns (from: nat)
    requires tr.Valid() && KeyLengths(salt, baseIv)
    requires CanTake(tr, Joint(Begin(tr, salt, baseIv), []), moves)
    requires Possible(TakeAll(tr, Joint(Begin(tr, salt, baseIv), []), moves), Rejoin(sid, newSalt, newIv))
    ensures var j := TakeAll(tr, Joint(Begin(tr, salt, baseIv), []), moves);
            var v := Take(tr, j, Rejoin(sid, newSalt, newIv)).w;
            && v.data != [] && v.data[0] == Text(Announcement(newSalt, newIv, tr.Total(), from))
            && (forall i: nat, t: nat :: R.AckStands(j.h, i, t) ==> t <= from)
            && (from == 0 || exists i: nat :: R.AckStands(j.h, i, from))
  {
    var start := Joint(Begin(tr, salt, baseIv), []);
    var j := TakeAll(tr, start, moves);
    V.BeginKeepsWire(tr, salt, baseIv);
    hide V.WireInv, Possible, Take, R.AckStands, Begin, CanTake, TakeAll;
    var steps := RunAgrees(tr, start, moves);
    V.RunKeepsWire(tr, start.w, steps);
    from := j.w.checkpoint;
    R.CheckpointIsLargestAck(j.h);
    Announces(tr, j, sid, newSalt, newIv);
  }

  lemma Announces(tr: Transfer, j: Joint, sid: string, salt: seq<Byte>, baseIv: seq<Byte>)
    requires tr.Valid() && Agrees(j) && V.WireInv(tr, j.w) && Possible(j, Rejoin(sid, salt, baseIv))
    ensures var v := Take(tr, j, Rejoin(sid, salt, baseIv)).w;
            v.data != [] && v.data[0] == Text(Announcement(salt, baseIv, tr.Total(), j.w.checkpoint))
  {
    MoveAgrees(tr, j, Rejoin(sid, salt, baseIv));
    ReconnectTaken(tr, j.w, salt, baseIv);
    hide Take, HonestData, Reconnected, Agrees;
  }

  // ---- nothing is lost -----------------------------------------------------------------------------------------

  /** Moves that carry out one step; a recipient that is to be lost joins first. */
  function MovesOf(step: Step): seq<Move> {
    match step
    case RelayAck => [Acknowledge]
    case Reconnect(salt, baseIv) => [Rejoin("s", salt, baseIv)]
    case RecipientDrops(restarts) => [Aside(R.Join("r", R.RECIPIENT)), Lose("r", restarts)]
    case _ => [Unseen(step)]
  }

  lemma OneMove(tr: Transfer, j: Joint, m: Move)
    requires tr.Valid() && Possible(j, m)
    ensures CanTake(tr, j, [m]) && TakeAll(tr, j, [m]) == Take(tr, j, m)
  {
    hide Take, Possible;
    assert [m][1..] == [];
    assert CanTake(tr, Take(tr, j, m), []);
  }

  lemma TwoMoves(tr: Transfer, j: Joint, m: Move, n: Move)
    requires tr.Valid() && Possible(j, m) && Possible(Take(tr, j, m), n)
    ensures CanTake(tr, j, [m, n]) && TakeAll(tr, j, [m, n]) == Take(tr, Take(tr, j, m), n)
  {
    hide Take, Possible;
    assert [m, n][1..] == [n];
    OneMove(tr, Take(tr, j, m), n);
  }

  lemma DropIsRelayed(tr: Transfer, j: Joint, restarts: bool)
    requires tr.Valid() && Agrees(j) && Enabled(j.w, RecipientDrops(restarts))
    ensures var moves := MovesOf(RecipientDrops(restarts));
            CanTake(tr, j, moves) && TakeAll(tr, j, moves).w == Apply(tr, j.w, RecipientDrops(restarts))
  {
    var join, more := Aside(R.Join("r", R.RECIPIENT)), j.h + [R.Join("r", R.RECIPIENT)];
    var k := Take(tr, j, join);
    assert k == Joint(j.w, more);
    assert R.RegisteredAt(more, |j.h|, "r", R.RECIPIENT);
    assert IsRecipient(more, "r");
    assert Possible(k, Lose("r", restarts)) by { hide Apply, Enabled; }
    TwoMoves(tr, j, join, Lose("r", restarts));
    hide CanTake, TakeAll, Possible, Apply, Enabled, IsRecipient;
  }

  lemma StepIsRelayed(tr: Transfer, j: Joint, step: Step)
    requires tr.Valid() && Agrees(j) && Enabled(j.w, step)
    ensures CanTake(tr, j, MovesOf(step)) && TakeAll(tr, j, MovesOf(step)).w == Apply(tr, j.w, step)
  {
    if step.RecipientDrops? {
      DropIsRelayed(tr, j, step.restarts);
    } else {
      var m := MovesOf(step)[0];
      assert Possible(j, m) by { hide Apply, Enabled; }
      MoveAgrees(tr, j, m);
      OneMove(tr, j, m);
    }
    hide CanTake, TakeAll, Possible, Take, Agrees, Apply, Enabled;
  }

  lemma {:induction false} JoinTakes(tr: Transfer, j: Joint, a: seq<Move>, b: seq<Move>)
    requires tr.Valid() && CanTake(tr, j, a) && CanTake(tr, TakeAll(tr, j, a), b)
    ensures CanTake(tr, j, a + b) && TakeAll(tr, j, a + b) == TakeAll(tr, TakeAll(tr, j, a), b)
    decreases |a|
  {
    hide Take, Possible;
    if a == [] {
      assert a + b == b;
    } else {
      assert (a + b)[1..] == a[1..] + b;
      JoinTakes(tr, Take(tr, j, a[0]), a[1..], b);
    }
  }

  /** Every run of `Resume` is the peers' part of a joint run. */
  lemma {:induction false} EveryRunIsRelayed(tr: Transfer, j: Joint, steps: seq<Step>) returns (moves: seq<Move>)
    requires tr.Valid() && Agrees(j) && CanRun(tr, j.w, steps)
    ensures CanTake(tr, j, moves) && TakeAll(tr, j, moves).w == Run(tr, j.w, steps)
    decreases |steps|
  {
    hide Take, Possible, Apply, Enabled, Agrees;
    if steps == [] {
      moves := [];
    } else {
      StepIsRelayed(tr, j, steps[0]);
      var first := MovesOf(steps[0]);
      var k := TakeAll(tr, j, first);
      var ran := RunAgrees(tr, j, first);
      var rest := EveryRunIsRelayed(tr, k, steps[1..]);
      JoinTakes(tr, j, first, rest);
      moves := first + rest;
    }
  }
}
