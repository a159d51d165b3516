/** The two chunk engines over ordered, reliable channels and without timer pulses, which is how the
    command-line programs run them: when does a transfer finish, and within how many steps? The sender may find
    acknowledgements of an earlier connection in its queue. */
module TransferProgress {
  import opened Bytes
  import opened Multiples
  import opened SenderEngines
  import opened ReceiverEngines
  import opened WindowProtocol

  datatype Link = Link(
    snd: SenderState,
    rcv: ReceiverState,
    data: seq<SenderAction>,
    control: seq<ReceiverAction>)

  /** One message leaves a channel and is handled by the peer. */
  datatype Move = TakeData(at: nat) | TakeControl

  /** The announcement at `data`'s head has created the receiver; the window is on its way. */
  function Begin(total: nat, window: nat, batch: nat, from: nat): Link {
    Link(
      Opened(Fresh(total, window), from),
      NewReceiver(batch, 250, 5000, from),
      OpenActions(Fresh(total, window), from)[1..],
      [])
  }

  function Acks(throughs: seq<nat>): (control: seq<ReceiverAction>)
    ensures |control| == |throughs| && forall k :: 0 <= k < |control| ==> control[k] == ReceiverAction.Ack(throughs[k])
  {
    seq(|throughs|, k requires 0 <= k < |throughs| => ReceiverAction.Ack(throughs[k]))
  }

  /** The same with acknowledgements of an earlier connection ahead of those to come. */
  function BeginWith(total: nat, window: nat, batch: nat, from: nat, stale: seq<nat>): Link {
    Begin(total, window, batch, from).(control := Acks(stale))
  }

  function FrameInput(frame: SenderAction, at: nat): Input
    requires !frame.Metadata?
  {
    if frame.Chunk? then ChunkIn(frame.index, at) else EndIn(frame.total)
  }

  predicate Possible(l: Link, m: Move) {
    && l.rcv.Valid()
    && match m
       case TakeData(_) => l.data != [] && !l.data[0].Metadata?
       case TakeControl => l.control != [] && l.control[0].Ack? && l.control[0].through < U64
  }

  function Take(l: Link, m: Move): Link
    requires Possible(l, m)
  {
    match m
    case TakeData(at) =>
      var i := FrameInput(l.data[0], at);
      l.(rcv := Next(l.rcv, i), data := l.data[1..], control := l.control + Controls(Actions(l.rcv, i)))
    case TakeControl =>
      var through := l.control[0].through;
      l.(snd := AfterAck(l.snd, through), data := l.data + AckActions(l.snd, through),
         control := l.control[1..])
  }

  predicate CanTake(l: Link, moves: seq<Move>)
    decreases |moves|
  {
    moves == [] || (Possible(l, moves[0]) && CanTake(Take(l, moves[0]), moves[1..]))
  }

  function TakeAll(l: Link, moves: seq<Move>): Link
    requires CanTake(l, moves)
    decreases |moves|
  {
    if moves == [] then l else TakeAll(Take(l, moves[0]), moves[1..])
  }

  /** Nothing is in flight. */
  predicate Quiet(l: Link) {
    l.data == [] && l.control == []
  }

  /** The run cannot go on. */
  ghost predicate AtRest(l: Link) {
    forall m: Move :: !Possible(l, m)
  }

  /** What has been acknowledged once everything below `e` has been delivered from `from`. */
  function LastFloor(from: nat, e: nat, batch: nat): (f: nat)
    requires batch >= 1
  {
    Max(from, Multiple(e, batch))
  }

  // ---- the invariant ----------------------------------------------------------------------------

  /** What is in flight from `lo` to `hi`, with the end marker behind it if it is still out. */
  function Stream(lo: nat, hi: nat, total: nat, end: bool): seq<SenderAction>
    requires lo <= hi
  {
    Chunks(lo, hi) + (if end then [SenderAction.End(total)] else [])
  }

  /** What holds whatever acknowledgements the sender finds: the receiver is within what was sent, and exactly the rest
      is on its way. */
  ghost predicate Streaming(l: Link) {
    var s, r := l.snd, l.rcv;
    && s.Valid() && r.Valid()
    && r.expected <= s.next <= s.total
    && s.endSent == (s.next == s.total)
    && (r.done ==> r.expected == s.total)
    && l.data == Stream(r.expected, s.next, s.total, s.endSent && !r.done)
    && (forall k :: 0 <= k < |l.control| ==> l.control[k].Ack? && l.control[k].through < s.total)
  }

  function Throughs(control: seq<ReceiverAction>): (ts: seq<nat>)
    ensures |ts| == |control|
  {
    seq(|control|, k requires 0 <= k < |control| => if control[k].Ack? then control[k].through else 0)
  }

  /** Each acknowledgement, when its turn comes, names a chunk that was sent by then. */
  predicate InTurn(s: SenderState, acks: seq<nat>)
    decreases |acks|
  {
    acks == [] || (acks[0] < s.next && acks[0] < U64 && InTurn(AfterAck(s, acks[0]), acks[1..]))
  }

  /** The `base` these acknowledgements lead to. */
  function Covered(base: nat, acks: seq<nat>): (c: nat)
    ensures base <= c
    decreases |acks|
  {
    if acks == [] then base else Covered(Max(base, acks[0] + 1), acks[1..])
  }

  /** The window is upright and full, every acknowledgement on its way comes in turn, and together they cover everything
      that was due. */
  ghost predicate Flowing(l: Link, from: nat) {
    var s, r := l.snd, l.rcv;
    && Streaming(l)
    && from <= s.base <= s.next == Min(s.total, s.base + s.window) && from <= r.expected
    && InTurn(s, Throughs(l.control))
    && LastFloor(from, r.expected, r.batch) <= Covered(s.base, Throughs(l.control))
  }

  function Work(l: Link): int {
    2 * (l.snd.total - l.rcv.expected) + (if l.rcv.done then 0 else 1) + |l.control|
  }

  lemma BeginStreams(total: nat, window: nat, batch: nat, from: nat, stale: seq<nat>)
    requires total < U64 && 1 <= window < U64 && batch >= 1 && from <= total
    requires forall k :: 0 <= k < |stale| ==> stale[k] < total
    ensures Streaming(BeginWith(total, window, batch, from, stale))
    ensures Throughs(Acks(stale)) == stale
  {
    OpenSendsOneWindow(Fresh(total, window), from);
  }

  lemma BeginFlows(total: nat, window: nat, batch: nat, from: nat)
    requires total < U64 && 1 <= window < U64 && batch >= 1 && from <= total
    ensures Flowing(Begin(total, window, batch, from), from)
  {
    BeginFlowsWith(total, window, batch, from, []);
    assert Acks([]) == [];
  }

  /** A beginning flows if the acknowledgements found there come in turn. */
  lemma BeginFlowsWith(total: nat, window: nat, batch: nat, from: nat, stale: seq<nat>)
    requires total < U64 && 1 <= window < U64 && batch >= 1 && from <= total
    requires forall k :: 0 <= k < |stale| ==> stale[k] < total
    requires InTurn(Opened(Fresh(total, window), from), stale)
    ensures Flowing(BeginWith(total, window, batch, from, stale), from)
  {
    BeginStreams(total, window, batch, from, stale);
    hide InTurn, Covered;
  }

  lemma ExpectedChunk(r: ReceiverState, at: nat)
    requires r.Valid() && !r.done
    ensures var i := ChunkIn(r.expected, at);
            && Controls(Actions(r, i)) == DueAck(r.expected, r.batch)
            && Next(r, i).expected == r.expected + 1 && Next(r, i).batch == r.batch && !Next(r, i).done
            && Next(r, i).Valid()
  {
    var a := ChunkActions(r, r.expected);
    if (r.expected + 1) % r.batch == 0 {
      assert a == [Deliver(r.expected), Ack(r.expected)] && a[1..] == [Ack(r.expected)];
      assert Controls(a[1..]) == [Ack(r.expected)];
    } else {
      assert a == [Deliver(r.expected)];
    }
  }

  lemma StreamHead(lo: nat, hi: nat, total: nat, end: bool)
    requires lo < hi
    ensures var st := Stream(lo, hi, total, end);
            st[0] == Chunk(lo) && st[1..] == Stream(lo + 1, hi, total, end)
  {
  }

  lemma ChunkTaken(l: Link, at: nat)
    requires Streaming(l) && l.rcv.expected < l.snd.next
    ensures Possible(l, TakeData(at))
    ensures var t := Take(l, TakeData(at));
            && Streaming(t) && Work(t) < Work(l)
            && t.snd == l.snd && t.rcv.batch == l.rcv.batch && t.rcv.expected == l.rcv.expected + 1
            && t.control == l.control + DueAck(l.rcv.expected, l.rcv.batch)
  {
    hide Actions, Next, Controls;
    var s, r := l.snd, l.rcv;
    StreamHead(r.expected, s.next, s.total, s.endSent);
    ExpectedChunk(r, at);
  }

  lemma EndTaken(l: Link, at: nat)
    requires Streaming(l) && l.rcv.expected == l.snd.next && l.data != []
    ensures Possible(l, TakeData(at))
    ensures var t := Take(l, TakeData(at));
            && Streaming(t) && Work(t) < Work(l) && t.snd == l.snd && t.rcv.done
            && t.rcv.batch == l.rcv.batch && t.rcv.expected == l.rcv.expected && t.control == l.control
  {
    assert l.data == [SenderAction.End(l.snd.total)];
    var a := EndActions(l.rcv, l.snd.total);
    assert a == [Complete] && Controls(a) == [];
    assert l.control + [] == l.control;
  }

  lemma StreamsJoin(lo: nat, mid: nat, hi: nat, total: nat, first: bool, second: bool)
    requires lo <= mid <= hi && (first ==> mid == hi)
    requires !(first && second)
    ensures Stream(lo, mid, total, first) + Stream(mid, hi, total, second) == Stream(lo, hi, total, first || second)
  {
  }

  /** Any acknowledgement of a chunk that exists, in turn or not, sends on exactly where the sender stands. */
  lemma AckStreams(s: SenderState, through: nat)
    requires s.Valid() && s.next <= s.total && s.endSent == (s.next == s.total) && through < s.total
    ensures var t := AfterAck(s, through);
            && t.Valid() && t.total == s.total && t.window == s.window && t.base == Max(s.base, through + 1)
            && s.next <= t.next <= t.total && t.endSent == (t.next == t.total)
            && AckActions(s, through) == Stream(s.next, t.next, s.total, t.endSent && !s.endSent)
  {
  }

  lemma ControlTaken(l: Link)
    requires Streaming(l) && l.control != []
    ensures Possible(l, TakeControl) && l.control[0].through < l.snd.total
    ensures var t := Take(l, TakeControl);
            && Streaming(t) && Work(t) < Work(l) && t.rcv == l.rcv
            && t.snd == AfterAck(l.snd, l.control[0].through) && t.control == l.control[1..]
            && t.snd.total == l.snd.total && t.snd.window == l.snd.window
            && t.snd.base == Max(l.snd.base, l.control[0].through + 1)
  {
    var s, through := l.snd, l.control[0].through;
    AckStreams(s, through);
    var t := AfterAck(s, through);
    StreamsJoin(l.rcv.expected, s.next, t.next, s.total, s.endSent && !l.rcv.done, t.endSent && !s.endSent);
    hide AfterAck, AckActions, Stream;
  }

  lemma MoveStreams(l: Link, m: Move)
    requires Streaming(l) && Possible(l, m)
    ensures var t := Take(l, m);
            && Streaming(t) && Work(t) < Work(l)
            && t.snd.total == l.snd.total && t.snd.window == l.snd.window && t.rcv.batch == l.rcv.batch
            && l.rcv.expected <= t.rcv.expected
  {
    match m
    case TakeControl => ControlTaken(l);
    case TakeData(at) => {
      if l.rcv.expected < l.snd.next {
        ChunkTaken(l, at);
      } else {
        EndTaken(l, at);
      }
    }
  }

  // ---- acknowledgements in turn ----------------------------------------------------------------------------

  /** An upright, full window stays so under an acknowledgement of a chunk that was sent, and moves up. */
  lemma AckInTurn(s: SenderState, through: nat)
    requires s.Valid() && s.base <= s.next == Min(s.total, s.base + s.window) && through < s.next
    ensures var t := AfterAck(s, through);
            t.base <= t.next == Min(t.total, t.base + t.window) && s.next <= t.next && t.Valid() && t.base >= s.base
  {
  }

  lemma {:induction false} InTurnMore(s: SenderState, acks: seq<nat>, e: nat)
    requires s.Valid() && s.base <= s.next == Min(s.total, s.base + s.window) && e < s.next
    ensures InTurn(s, acks + [e]) <==> InTurn(s, acks)
    decreases |acks|
  {
    hide AfterAck;
    if acks == [] {
      assert (acks + [e])[1..] == [];
    } else {
      assert (acks + [e])[1..] == acks[1..] + [e];
      if acks[0] < s.next {
        AckInTurn(s, acks[0]);
        InTurnMore(AfterAck(s, acks[0]), acks[1..], e);
      }
    }
  }

  lemma {:induction false} CoveredMore(base: nat, acks: seq<nat>, e: nat)
    ensures Covered(base, acks + [e]) == Max(Covered(base, acks), e + 1)
    decreases |acks|
  {
    if acks == [] {
      assert (acks + [e])[1..] == [];
    } else {
      assert (acks + [e])[1..] == acks[1..] + [e];
      CoveredMore(Max(base, acks[0] + 1), acks[1..], e);
    }
  }

  lemma ThroughsMore(a: seq<ReceiverAction>, b: seq<ReceiverAction>)
    ensures Throughs(a + b) == Throughs(a) + Throughs(b)
  {
  }

  lemma ThroughsRest(control: seq<ReceiverAction>)
    requires control != [] && control[0].Ack?
    ensures Throughs(control)[0] == control[0].through && Throughs(control)[1..] == Throughs(control[1..])
  {
  }

  /** The acknowledgement that becomes due with a chunk covers what is due with it. */
  lemma DueCovered(from: nat, base: nat, e: nat, batch: nat, acks: seq<nat>)
    requires batch >= 1 && from <= e && LastFloor(from, e, batch) <= Covered(base, acks)
    ensures LastFloor(from, e + 1, batch) <= Covered(base, acks + Throughs(DueAck(e, batch)))
  {
    MultipleSteps(e, batch);
    hide Multiple;
    if (e + 1) % batch == 0 {
      CoveredMore(base, acks, e);
      assert Throughs(DueAck(e, batch)) == [e];
    } else {
      assert acks + Throughs(DueAck(e, batch)) == acks;
    }
  }

  lemma DueInTurn(s: SenderState, acks: seq<nat>, e: nat, batch: nat)
    requires s.Valid() && s.base <= s.next == Min(s.total, s.base + s.window) && e < s.next && batch >= 1
    ensures InTurn(s, acks + Throughs(DueAck(e, batch))) <==> InTurn(s, acks)
  {
    hide InTurn;
    if (e + 1) % batch == 0 {
      InTurnMore(s, acks, e);
      assert Throughs(DueAck(e, batch)) == [e];
    } else {
      assert acks + Throughs(DueAck(e, batch)) == acks;
    }
  }

  lemma ChunkFlows(l: Link, from: nat, at: nat)
    requires Flowing(l, from) && l.rcv.expected < l.snd.next
    ensures Possible(l, TakeData(at)) && Flowing(Take(l, TakeData(at)), from)
  {
    var s, e, batch, acks := l.snd, l.rcv.expected, l.rcv.batch, Throughs(l.control);
    ChunkTaken(l, at);
    ThroughsMore(l.control, DueAck(e, batch));
    DueCovered(from, s.base, e, batch, acks);
    DueInTurn(s, acks, e, batch);
    hide Streaming, Take, InTurn, Covered, Throughs, DueAck, LastFloor;
  }

  lemma ControlFlows(l: Link, from: nat)
    requires Flowing(l, from) && l.control != []
    ensures Possible(l, TakeControl) && Flowing(Take(l, TakeControl), from)
  {
    ControlTaken(l);
    ThroughsRest(l.control);
    assert l.control[0].through < l.snd.next;
    AckInTurn(l.snd, l.control[0].through);
    hide Streaming, Take, Throughs, AfterAck, LastFloor;
  }

  lemma MoveFlows(l: Link, from: nat, m: Move)
    requires Flowing(l, from) && Possible(l, m)
    ensures var t := Take(l, m);
            && Flowing(t, from) && Work(t) < Work(l)
            && t.snd.total == l.snd.total && t.snd.window == l.snd.window && t.rcv.batch == l.rcv.batch
  {
    MoveStreams(l, m);
    match m
    case TakeControl => ControlFlows(l, from);
    case TakeData(at) => {
      if l.rcv.expected < l.snd.next {
        ChunkFlows(l, from, at);
      } else {
        EndTaken(l, at);
      }
    }
  }

  /** A run goes on as long as anything is in flight. */
  lemma RestIsQuiet(l: Link)
    requires Streaming(l)
    ensures AtRest(l) <==> Quiet(l)
  {
    if !Quiet(l) {
      if l.control != [] {
        ControlTaken(l);
        assert Possible(l, TakeControl);
      } else if l.rcv.expected < l.snd.next {
        ChunkTaken(l, 0);
        assert Possible(l, TakeData(0));
      } else {
        EndTaken(l, 0);
        assert Possible(l, TakeData(0));
      }
    }
  }

  /** Every run is no longer than the work it starts with, whatever acknowledgements the sender finds. */
  lemma {:induction false} RunStreams(l: Link, moves: seq<Move>)
    requires Streaming(l) && CanTake(l, moves)
    ensures var t := TakeAll(l, moves);
            && Streaming(t) && Work(t) + |moves| <= Work(l)
            && t.snd.total == l.snd.total && t.snd.window == l.snd.window && t.rcv.batch == l.rcv.batch
    decreases |moves|
  {
    if moves == [] {
    } else {
      MoveStreams(l, moves[0]);
      RunStreams(Take(l, moves[0]), moves[1..]);
    }
  }

  lemma {:induction false} RunFlows(l: Link, from: nat, moves: seq<Move>)
    requires Flowing(l, from) && CanTake(l, moves)
    ensures var t := TakeAll(l, moves);
            && Flowing(t, from) && Work(t) + |moves| <= Work(l)
            && t.snd.total == l.snd.total && t.snd.window == l.snd.window && t.rcv.batch == l.rcv.batch
    decreases |moves|
  {
    if moves == [] {
    } else {
      MoveFlows(l, from, moves[0]);
      RunFlows(Take(l, moves[0]), from, moves[1..]);
    }
  }

  // ---- acknowledgements out of turn ------------------------------------------------------------------------

  /** Some acknowledgement comes, or came, before the chunk it names was sent: the window is or will be inverted. */
  ghost predicate OutOfTurn(l: Link) {
    var s := l.snd;
    && Streaming(l) && s.window <= s.next < s.total
    && (s.next < s.base || (s.base <= s.next == s.base + s.window && !InTurn(s, Throughs(l.control))))
  }

  /** An inverted window that was full sends nothing, whatever is acknowledged: the wrapped edge is below one window. */
  lemma InvertedIsSilent(s: SenderState, through: nat)
    requires s.Valid() && s.window <= s.next < s.total && through < s.total && s.next < Max(s.base, through + 1)
    requires s.base <= s.total
    ensures AfterAck(s, through).next == s.next
  {
  }

  lemma ControlStaysOut(l: Link)
    requires OutOfTurn(l) && l.control != [] && l.snd.base <= l.snd.total
    ensures Possible(l, TakeControl) && OutOfTurn(Take(l, TakeControl))
  {
    var s, through, acks := l.snd, l.control[0].through, Throughs(l.control);
    ControlTaken(l);
    ThroughsRest(l.control);
    if s.next < Max(s.base, through + 1) {
      InvertedIsSilent(s, through);
    } else {
      AckInTurn(s, through);
      InTurnWhenAllSent(AfterAck(s, through), acks[1..]);
    }
    hide Streaming, Take, Throughs, AfterAck;
  }

  /** Once everything was sent, every acknowledgement of a chunk that exists comes in turn. */
  lemma {:induction false} InTurnWhenAllSent(s: SenderState, acks: seq<nat>)
    requires s.Valid() && s.base <= s.next == Min(s.total, s.base + s.window)
    ensures s.next == s.total && (forall k :: 0 <= k < |acks| ==> acks[k] < s.total) ==> InTurn(s, acks)
    decreases |acks|
  {
    hide AfterAck;
    if acks == [] || s.next < s.total || acks[0] >= s.total {
    } else {
      AckInTurn(s, acks[0]);
      AckKeepsTotal(s, acks[0]);
      InTurnWhenAllSent(AfterAck(s, acks[0]), acks[1..]);
    }
  }

  lemma AckKeepsTotal(s: SenderState, through: nat)
    requires through < U64
    ensures AfterAck(s, through).total == s.total && AfterAck(s, through).window == s.window
  {
  }

  lemma ChunkStaysOut(l: Link, at: nat)
    requires OutOfTurn(l) && l.rcv.expected < l.snd.next
    ensures Possible(l, TakeData(at)) && OutOfTurn(Take(l, TakeData(at)))
  {
    var s, e, batch, acks := l.snd, l.rcv.expected, l.rcv.batch, Throughs(l.control);
    ChunkTaken(l, at);
    ThroughsMore(l.control, DueAck(e, batch));
    if s.base <= s.next {
      DueInTurn(s, acks, e, batch);
    }
    hide Streaming, Take, InTurn, Throughs, DueAck;
  }

  lemma MoveStaysOut(l: Link, m: Move)
    requires OutOfTurn(l) && Possible(l, m) && l.snd.base <= l.snd.total
    ensures OutOfTurn(Take(l, m)) && Take(l, m).snd.base <= Take(l, m).snd.total
  {
    match m
    case TakeControl => {
      ControlTaken(l);
      ControlStaysOut(l);
    }
    case TakeData(at) => {
      NoEndYet(l);
      ChunkTaken(l, at);
      ChunkStaysOut(l, at);
    }
  }

  lemma NoEndYet(l: Link)
    requires OutOfTurn(l)
    ensures !l.rcv.done && (l.data != [] ==> l.rcv.expected < l.snd.next)
  {
    hide InTurn;
  }

  lemma {:induction false} NeverDoneOutOfTurn(l: Link, moves: seq<Move>)
    requires OutOfTurn(l) && l.snd.base <= l.snd.total && CanTake(l, moves)
    ensures !TakeAll(l, moves).rcv.done
    decreases |moves|
  {
    if moves == [] {
      NoEndYet(l);
    } else {
      MoveStaysOut(l, moves[0]);
      hide OutOfTurn, Take;
      NeverDoneOutOfTurn(Take(l, moves[0]), moves[1..]);
    }
  }

  /** A beginning that finds an acknowledgement out of turn. */
  lemma BeginOutOfTurn(total: nat, window: nat, batch: nat, from: nat, stale: seq<nat>)
    requires total < U64 && 1 <= window < U64 && batch >= 1 && from <= total
    requires forall k :: 0 <= k < |stale| ==> stale[k] < total
    requires !InTurn(Opened(Fresh(total, window), from), stale)
    ensures var l := BeginWith(total, window, batch, from, stale); OutOfTurn(l) && l.snd.base <= l.snd.total
  {
    var s := Opened(Fresh(total, window), from);
    BeginStreams(total, window, batch, from, stale);
    InTurnWhenAllSent(s, stale);
    hide InTurn, Throughs, Acks;
  }

  // ---- when a transfer finishes -------------------------------------------------------------------

  function NextMultiple(from: nat, batch: nat): nat
    requires batch >= 1
  {
    Multiple(from, batch) + batch
  }

  /** A window covers a batch, or what is left fits one window, or the first acknowledgement comes
      within one window and what is left then fits another. */
  predicate Finishable(total: nat, window: nat, batch: nat, from: nat)
    requires batch >= 1
  {
    || batch <= window
    || total <= from + window
    || (NextMultiple(from, batch) <= from + window && total <= NextMultiple(from, batch) + window)
  }

  lemma NextMultipleIsOne(from: nat, batch: nat)
    requires batch >= 1
    ensures Multiple(NextMultiple(from, batch), batch) == NextMultiple(from, batch)
  {
    assert NextMultiple(from, batch) == batch * (from / batch + 1);
    ModOf(batch, from / batch + 1, 0);
  }

  /** With everything in the window delivered and everything due acknowledged, the window cannot end
      short of `total`. */
  lemma NoRestBelow(total: nat, window: nat, batch: nat, from: nat, base: nat)
    requires batch >= 1 && from <= base && base >= LastFloor(from, base + window, batch)
    requires Finishable(total, window, batch, from)
    ensures total <= base + window
  {
    if NextMultiple(from, batch) <= base + window {
      NextMultipleIsOne(from, batch);
      MultipleMonotone(NextMultiple(from, batch), base + window, batch);
    }
  }

  lemma QuietMeansDone(l: Link, from: nat)
    requires Flowing(l, from) && Quiet(l)
    requires Finishable(l.snd.total, l.snd.window, l.rcv.batch, from)
    ensures l.rcv.done && l.snd.endSent && l.rcv.expected == l.snd.total
  {
    var s, r := l.snd, l.rcv;
    assert |Chunks(r.expected, s.next)| == 0 && Throughs(l.control) == [];
    if r.expected == s.base + s.window {
      NoRestBelow(s.total, s.window, r.batch, from, s.base);
    }
  }

  /** Where a transfer that cannot finish comes to rest. */
  function Ceiling(window: nat, batch: nat, from: nat): nat
    requires batch >= 1
  {
    if NextMultiple(from, batch) > from + window then from else NextMultiple(from, batch)
  }

  ghost predicate AllBelow(control: seq<ReceiverAction>, cap: nat) {
    forall k :: 0 <= k < |control| ==> IsControl(control[k]) && Floor(control[k]) <= cap
  }

  ghost predicate Capped(l: Link, cap: nat) {
    l.snd.base <= cap && AllBelow(l.control, cap)
  }

  /** No acknowledgement lies between the ceiling and one window above it. */
  lemma CeilingHolds(window: nat, batch: nat, from: nat, e: nat)
    requires batch > window && from < e <= Ceiling(window, batch, from) + window && e % batch == 0
    ensures e <= Ceiling(window, batch, from)
  {
    var m := Multiple(from, batch);
    assert Multiple(e, batch) == e;
    if e < m + batch {
      NoneBetween(from, e, batch);
    } else {
      NextMultipleIsOne(from, batch);
      NoneBetween(m + batch, e, batch);
    }
  }

  lemma AckBelowCeiling(window: nat, batch: nat, from: nat, e: nat, control: seq<ReceiverAction>)
    requires batch > window && from <= e < Ceiling(window, batch, from) + window
    requires AllBelow(control, Ceiling(window, batch, from))
    ensures AllBelow(control + DueAck(e, batch), Ceiling(window, batch, from))
  {
    if (e + 1) % batch == 0 {
      CeilingHolds(window, batch, from, e + 1);
    }
  }

  lemma CapHolds(l: Link, from: nat, m: Move)
    requires Flowing(l, from) && Possible(l, m)
    requires l.rcv.batch > l.snd.window && Capped(l, Ceiling(l.snd.window, l.rcv.batch, from))
    ensures Capped(Take(l, m), Ceiling(l.snd.window, l.rcv.batch, from))
  {
    if m.TakeControl? {
      ControlTaken(l);
      hide Streaming, InTurn, Covered, Take;
    } else if l.rcv.expected < l.snd.next {
      ChunkTaken(l, m.at);
      AckBelowCeiling(l.snd.window, l.rcv.batch, from, l.rcv.expected, l.control);
    } else {
      EndTaken(l, m.at);
    }
  }

  lemma {:induction false} CappedForever(l: Link, from: nat, moves: seq<Move>)
    requires Flowing(l, from) && CanTake(l, moves)
    requires l.rcv.batch > l.snd.window && Capped(l, Ceiling(l.snd.window, l.rcv.batch, from))
    requires Ceiling(l.snd.window, l.rcv.batch, from) + l.snd.window < l.snd.total
    ensures !TakeAll(l, moves).rcv.done
    decreases |moves|
  {
    if moves == [] {
    } else {
      MoveFlows(l, from, moves[0]);
      CapHolds(l, from, moves[0]);
      CappedForever(Take(l, moves[0]), from, moves[1..]);
    }
  }

  /** Some run goes on until nothing is in flight. */
  lemma {:induction false} RunToQuiet(l: Link) returns (moves: seq<Move>)
    requires Streaming(l)
    ensures CanTake(l, moves) && Quiet(TakeAll(l, moves))
    decreases Work(l)
  {
    hide Streaming, Take;
    if Quiet(l) {
      moves := [];
    } else {
      RestIsQuiet(l);
      var m: Move :| Possible(l, m);
      MoveStreams(l, m);
      WorkIsNatural(l);
      var rest := RunToQuiet(Take(l, m));
      moves := [m] + rest;
      assert moves[1..] == rest;
    }
  }

  lemma WorkIsNatural(l: Link)
    requires Streaming(l)
    ensures Work(l) >= 0
  {
  }

  ghost predicate AlwaysFinishes(total: nat, window: nat, batch: nat, from: nat)
    requires batch >= 1
  {
    var l := Begin(total, window, batch, from);
    forall moves :: CanTake(l, moves) && AtRest(TakeAll(l, moves)) ==> TakeAll(l, moves).rcv.done
  }

  /** The progress theorem, exact in all four parameters: every run that cannot go on has completed if and only if
      the parameters are `Finishable`. */
  lemma FinishesIff(total: nat, window: nat, batch: nat, from: nat)
    requires total < U64 && 1 <= window < U64 && batch >= 1 && from <= total
    ensures AlwaysFinishes(total, window, batch, from) <==> Finishable(total, window, batch, from)
  {
    var l := Begin(total, window, batch, from);
    BeginFlows(total, window, batch, from);
    if Finishable(total, window, batch, from) {
      forall moves | CanTake(l, moves) && AtRest(TakeAll(l, moves))
        ensures TakeAll(l, moves).rcv.done
      {
        RunFlows(l, from, moves);
        RestIsQuiet(TakeAll(l, moves));
        QuietMeansDone(TakeAll(l, moves), from);
      }
    } else {
      var moves := RunToQuiet(l);
      RunFlows(l, from, moves);
      RestIsQuiet(TakeAll(l, moves));
      CappedForever(l, from, moves);
    }
  }

  /** Every run is short, whatever acknowledgements the sender finds: one step for each of them, at most two for each
      missing chunk, and one for the end marker. */
  lemma RunsAreShort(total: nat, window: nat, batch: nat, from: nat, stale: seq<nat>, moves: seq<Move>)
    requires total < U64 && 1 <= window < U64 && batch >= 1 && from <= total
    requires forall k :: 0 <= k < |stale| ==> stale[k] < total
    requires CanTake(BeginWith(total, window, batch, from, stale), moves)
    ensures |moves| <= 2 * (total - from) + 1 + |stale|
  {
    var l := BeginWith(total, window, batch, from, stale);
    BeginStreams(total, window, batch, from, stale);
    RunStreams(l, moves);
    WorkIsNatural(TakeAll(l, moves));
    hide Streaming;
  }

  ghost predicate AlwaysFinishesWith(total: nat, window: nat, batch: nat, from: nat, stale: seq<nat>)
    requires batch >= 1
  {
    var l := BeginWith(total, window, batch, from, stale);
    forall moves :: CanTake(l, moves) && AtRest(TakeAll(l, moves)) ==> TakeAll(l, moves).rcv.done
  }

  /** Exact, for parameters that finish from a clean beginning (a batch within the window always does): with
      acknowledgements of an earlier connection in the sender's queue every run that cannot go on has completed if and
      only if each of them, when its turn comes, names a chunk that was sent by then. If one does not, no run ever
      completes. */
  lemma FinishesWithStaleIff(total: nat, window: nat, batch: nat, from: nat, stale: seq<nat>)
    requires total < U64 && 1 <= window < U64 && batch >= 1 && from <= total && Finishable(total, window, batch, from)
    requires forall k :: 0 <= k < |stale| ==> stale[k] < total
    ensures AlwaysFinishesWith(total, window, batch, from, stale) <==> InTurn(Opened(Fresh(total, window), from), stale)
    ensures !InTurn(Opened(Fresh(total, window), from), stale) ==>
              forall moves :: CanTake(BeginWith(total, window, batch, from, stale), moves) ==>
                !TakeAll(BeginWith(total, window, batch, from, stale), moves).rcv.done
  {
    var l := BeginWith(total, window, batch, from, stale);
    hide InTurn, Opened, BeginWith, Flowing, Streaming, OutOfTurn, Finishable, Take, AtRest, Quiet;
    BeginStreams(total, window, batch, from, stale);
    if InTurn(Opened(Fresh(total, window), from), stale) {
      BeginFlowsWith(total, window, batch, from, stale);
      BeginIs(total, window, batch, from, stale);
      forall moves | CanTake(l, moves) && AtRest(TakeAll(l, moves))
        ensures TakeAll(l, moves).rcv.done
      {
        FlowsToDone(l, from, moves);
      }
    } else {
      BeginOutOfTurn(total, window, batch, from, stale);
      forall moves | CanTake(l, moves)
        ensures !TakeAll(l, moves).rcv.done
      {
        NeverDoneOutOfTurn(l, moves);
      }
      var moves := RunToQuiet(l);
      RunStreams(l, moves);
      RestIsQuiet(TakeAll(l, moves));
    }
  }

  lemma BeginIs(total: nat, window: nat, batch: nat, from: nat, stale: seq<nat>)
    ensures var l := BeginWith(total, window, batch, from, stale);
            l.snd.total == total && l.snd.window == window && l.rcv.batch == batch
  {
  }

  lemma FlowsToDone(l: Link, from: nat, moves: seq<Move>)
    requires Flowing(l, from) && CanTake(l, moves) && AtRest(TakeAll(l, moves)) && l.rcv.batch >= 1
    requires Finishable(l.snd.total, l.snd.window, l.rcv.batch, from)
    ensures TakeAll(l, moves).rcv.done
  {
    RunFlows(l, from, moves);
    assert Streaming(TakeAll(l, moves));
    hide Flowing, Streaming, Finishable, AtRest, Quiet;
    RestIsQuiet(TakeAll(l, moves));
    QuietMeansDone(TakeAll(l, moves), from);
  }

  /** With the program's batch of 64 and window of 256, from any resume point, every run that cannot go
      on has delivered everything. */
  lemma ShippedConstantsFinish(total: nat, from: nat, moves: seq<Move>)
    requires total < U64 && from <= total
    requires CanTake(Begin(total, 256, 64, from), moves) && AtRest(TakeAll(Begin(total, 256, 64, from), moves))
    ensures var t := TakeAll(Begin(total, 256, 64, from), moves);
            t.rcv.done && t.rcv.expected == total && t.snd.endSent
  {
    BeginFlows(total, 256, 64, from);
    RunFlows(Begin(total, 256, 64, from), from, moves);
    RestIsQuiet(TakeAll(Begin(total, 256, 64, from), moves));
    QuietMeansDone(TakeAll(Begin(total, 256, 64, from), moves), from);
  }

  /** Over ordered channels and without timer pulses the receiver never asks for a resend: every control message in any
      run is an acknowledgement. So handling acknowledgements first is handling them in the order they were emitted. */
  lemma AcksFirstIsEmissionOrder(total: nat, window: nat, batch: nat, from: nat, moves: seq<Move>, k: nat)
    requires total < U64 && 1 <= window < U64 && batch >= 1 && from <= total
    requires CanTake(Begin(total, window, batch, from), moves)
    ensures var control := TakeAll(Begin(total, window, batch, from), moves).control;
            (forall j :: 0 <= j < |control| ==> control[j].Ack?) && (AcksFirst(control, k) <==> k == 0 < |control|)
  {
    hide *;
    BeginFlows(total, window, batch, from);
    RunFlows(Begin(total, window, batch, from), from, moves);
    OldestFirst(TakeAll(Begin(total, window, batch, from), moves), from, k);
  }

  lemma OldestFirst(l: Link, from: nat, k: nat)
    requires Flowing(l, from)
    ensures forall j :: 0 <= j < |l.control| ==> l.control[j].Ack?
    ensures AcksFirst(l.control, k) <==> k == 0 < |l.control|
  {
    assert Streaming(l);
    hide Flowing;
    assert 0 < k < |l.control| ==> l.control[0].Ack? && l.control[k].Ack?;
  }

  /** Acknowledgements of chunks within the first window from the resume point come in turn; those up to the resume
      point itself in particular. */
  lemma {:induction false} WithinWindowIsInTurn(s: SenderState, acks: seq<nat>, hi: nat)
    requires s.Valid() && s.base <= s.next == Min(s.total, s.base + s.window) && hi <= s.next
    requires forall k :: 0 <= k < |acks| ==> acks[k] < hi
    ensures InTurn(s, acks)
    decreases |acks|
  {
    hide AfterAck;
    if acks == [] {
    } else {
      AckInTurn(s, acks[0]);
      WithinWindowIsInTurn(AfterAck(s, acks[0]), acks[1..], hi);
    }
  }
}
