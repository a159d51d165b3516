/** The two chunk engines joined by an adversarial network.

    Data plane: every frame ever sent may be delivered at any later time, any number of times and in
    any order, or never. Control plane: acknowledgements and requests arrive in the order they were
    emitted, and any of them may be lost. */
module WindowProtocol {
  import opened Bytes
  import opened Multiples
  import opened Wrappers
  import opened SenderEngines
  import opened ReceiverEngines

  datatype System = System(
    snd: SenderState,
    rcv: ReceiverState,
    sent: set<SenderAction>,
    control: seq<ReceiverAction>)

  datatype Step =
    | DeliverData(frame: SenderAction, at: nat)
    | TickReceiver(at: nat)
    | SeeControl(at: nat)
    | ProcessControl(k: nat)
    | LoseControl(k: nat)
    | PumpSender

  predicate IsControl(a: ReceiverAction) {
    a.Ack? || a.Request?
  }

  /** The part of the receiver's actions that travels back to the sender. */
  function Controls(actions: seq<ReceiverAction>): seq<ReceiverAction> {
    if actions == [] then []
    else (if IsControl(actions[0]) then [actions[0]] else []) + Controls(actions[1..])
  }

  function AsSet(actions: seq<SenderAction>): set<SenderAction> {
    set a | a in actions
  }

  function Start(total: nat, window: nat, batch: nat, ackInterval: nat, stallTimeout: nat, from: nat): System {
    System(
      Opened(Fresh(total, window), from),
      NewReceiver(batch, ackInterval, stallTimeout, from),
      AsSet(OpenActions(Fresh(total, window), from)),
      [])
  }

  function Receive(sys: System, i: Input): System
    requires sys.rcv.Valid()
  {
    sys.(rcv := Next(sys.rcv, i), control := sys.control + Controls(Actions(sys.rcv, i)))
  }

  /** The step can happen. In-order control is `k == 0` for every `ProcessControl(k)`. */
  predicate Enabled(sys: System, step: Step) {
    && sys.rcv.Valid()
    && match step
       case DeliverData(frame, _) => frame in sys.sent
       case ProcessControl(k) =>
         k < |sys.control| && IsControl(sys.control[k])
         && (sys.control[k].Ack? ==> sys.control[k].through < U64)
       case LoseControl(k) => k < |sys.control|
       case _ => true
  }

  function Apply(sys: System, step: Step): System
    requires Enabled(sys, step)
  {
    match step
    case DeliverData(Chunk(index), at) => Receive(sys, ChunkIn(index, at))
    case DeliverData(End(total), _) => Receive(sys, EndIn(total))
    case DeliverData(Metadata(_), _) => sys
    case TickReceiver(at) => Receive(sys, TickIn(at))
    case SeeControl(at) => Receive(sys, ControlIn(at))
    case ProcessControl(k) =>
      var rest := sys.control[..k] + sys.control[k + 1..];
      (match sys.control[k]
       case Ack(through) =>
         sys.(snd := AfterAck(sys.snd, through), control := rest,
              sent := sys.sent + AsSet(AckActions(sys.snd, through)))
       case Request(from) =>
         sys.(snd := Opened(sys.snd, from), control := rest,
              sent := sys.sent + AsSet(OpenActions(sys.snd, from))))
    case LoseControl(k) => sys.(control := sys.control[..k] + sys.control[k + 1..])
    case PumpSender =>
      sys.(snd := Pumped(sys.snd), sent := sys.sent + AsSet(PumpActions(sys.snd)))
  }

  // ---- the invariant ---------------------------------------------------------------------

  /** The value of `base` a control message asks the sender to adopt. */
  function Floor(c: ReceiverAction): nat
    requires IsControl(c)
  {
    if c.Ack? then c.through + 1 else c.from
  }

  ghost predicate ControlInOrder(lo: nat, hi: nat, control: seq<ReceiverAction>) {
    && (forall k :: 0 <= k < |control| ==> IsControl(control[k]) && lo <= Floor(control[k]) <= hi)
    && (forall j, k :: 0 <= j < k < |control| ==> Floor(control[j]) <= Floor(control[k]))
  }

  ghost predicate AllAt(control: seq<ReceiverAction>, floor: nat) {
    forall k :: 0 <= k < |control| ==> IsControl(control[k]) && Floor(control[k]) == floor
  }

  ghost predicate Inv(sys: System) {
    var s, r := sys.snd, sys.rcv;
    && s.Valid() && r.Valid()
    && s.base <= r.expected <= s.next
    && s.next == Min(s.total, s.base + s.window)
    && s.endSent == (s.next == s.total)
    && ControlInOrder(s.base, r.expected, sys.control)
    && (forall a :: a in sys.sent && a.Chunk? ==> a.index < s.next)
    && (forall a :: a in sys.sent && a.End? ==> a.total == s.total && s.endSent)
    && (r.done ==> r.expected == s.total)
  }

  lemma StartInv(total: nat, window: nat, batch: nat, ackInterval: nat, stallTimeout: nat, from: nat)
    requires total < U64 && 1 <= window < U64 && batch >= 1 && from <= total
    ensures Inv(Start(total, window, batch, ackInterval, stallTimeout, from))
  {
    OpenSendsOneWindow(Fresh(total, window), from);
  }

  lemma ControlsOfStep(s: ReceiverState, i: Input)
    requires s.Valid()
    ensures AllAt(Controls(Actions(s, i)), Next(s, i).expected)
    ensures s.expected <= Next(s, i).expected
    ensures s.done ==> Controls(Actions(s, i)) == []
  {
    var a := Actions(s, i);
    if |a| == 1 {
      assert a == [a[0]];
    } else if |a| == 2 {
      assert a == [a[0], a[1]] && a[1..] == [a[1]];
      assert Controls(a[1..]) == if IsControl(a[1]) then [a[1]] else [];
    }
  }

  lemma ControlsAppend(lo: nat, hi: nat, hi': nat, q: seq<ReceiverAction>, c: seq<ReceiverAction>)
    requires ControlInOrder(lo, hi, q) && lo <= hi <= hi'
    requires AllAt(c, hi')
    ensures ControlInOrder(lo, hi', q + c)
  {
    var all := q + c;
    forall k | 0 <= k < |all|
      ensures IsControl(all[k]) && lo <= Floor(all[k]) <= hi' && (k >= |q| ==> Floor(all[k]) == hi')
    {
      assert all[k] == if k < |q| then q[k] else c[k - |q|];
    }
    forall j, k | 0 <= j < k < |all|
      ensures Floor(all[j]) <= Floor(all[k])
    {
      if k < |q| {
        assert all[j] == q[j] && all[k] == q[k];
      }
    }
  }

  lemma ControlsDrop(lo: nat, hi: nat, q: seq<ReceiverAction>, k: nat)
    requires ControlInOrder(lo, hi, q) && k < |q|
    ensures ControlInOrder(lo, hi, q[..k] + q[k + 1..])
    ensures k == 0 ==> ControlInOrder(Floor(q[0]), hi, q[1..])
  {
    var rest := q[..k] + q[k + 1..];
    assert forall i :: 0 <= i < |rest| ==> rest[i] == if i < k then q[i] else q[i + 1];
  }

  lemma ReceiveKeepsInv(sys: System, i: Input)
    requires Inv(sys)
    requires i.ChunkIn? ==> i.index < sys.snd.next
    requires i.EndIn? ==> i.total == sys.snd.total
    ensures var t := Receive(sys, i);
            Inv(t) && t.snd == sys.snd && t.sent == sys.sent && sys.rcv.expected <= t.rcv.expected
  {
    ControlsOfStep(sys.rcv, i);
    ControlsAppend(sys.snd.base, sys.rcv.expected, Next(sys.rcv, i).expected, sys.control,
                   Controls(Actions(sys.rcv, i)));
  }

  /** Adopting a floor the receiver really reached slides the window up, never down. */
  lemma FloorMovesUp(s: SenderState, c: ReceiverAction)
    requires s.Valid() && IsControl(c) && s.base <= Floor(c) <= s.next
    requires s.next == Min(s.total, s.base + s.window)
    requires s.endSent == (s.next == s.total)
    requires c.Ack? ==> c.through < U64
    ensures var t := if c.Ack? then AfterAck(s, c.through) else Opened(s, c.from);
            && t.Valid() && t.total == s.total && t.window == s.window
            && t.base == Floor(c)
            && t.next == Min(s.total, t.base + s.window) >= s.next
            && t.endSent == (t.next == s.total)
    ensures var a := if c.Ack? then AckActions(s, c.through) else OpenActions(s, c.from);
            && (forall x :: x in a && x.Chunk? ==> x.index < Min(s.total, Floor(c) + s.window))
            && (forall x :: x in a && x.End? ==> x.total == s.total && Min(s.total, Floor(c) + s.window) == s.total)
  {
    if c.Request? {
      OpenSendsOneWindow(s, c.from);
    }
  }

  lemma ProcessKeepsInv(sys: System)
    requires Inv(sys) && Enabled(sys, ProcessControl(0))
    ensures var t := Apply(sys, ProcessControl(0));
            && Inv(t) && sys.snd.base <= t.snd.base && sys.snd.next <= t.snd.next
            && t.rcv == sys.rcv && t.snd.total == sys.snd.total && t.snd.window == sys.snd.window
  {
    hide Opened, AfterAck, OpenActions, AckActions;
    var c := sys.control[0];
    FloorMovesUp(sys.snd, c);
    ControlsDrop(sys.snd.base, sys.rcv.expected, sys.control, 0);
    assert sys.control[..0] + sys.control[1..] == sys.control[1..];
  }

  lemma LoseKeepsInv(sys: System, k: nat)
    requires Inv(sys) && Enabled(sys, LoseControl(k))
    ensures Inv(Apply(sys, LoseControl(k)))
  {
    ControlsDrop(sys.snd.base, sys.rcv.expected, sys.control, k);
  }

  lemma PumpKeepsInv(sys: System)
    requires Inv(sys)
    ensures var t := Apply(sys, PumpSender); Inv(t) && t.snd == sys.snd
  {
    PumpIsIdempotent(sys.snd);
  }

  /** Every step with in-order control keeps the invariant, and moves neither `base`, nor `next`, nor
      the receiver's progress back. */
  lemma StepKeepsInv(sys: System, step: Step)
    requires Inv(sys) && Enabled(sys, step)
    requires step.ProcessControl? ==> step.k == 0
    ensures var t := Apply(sys, step);
            && Inv(t)
            && sys.snd.base <= t.snd.base && sys.snd.next <= t.snd.next
            && sys.rcv.expected <= t.rcv.expected
            && t.snd.total == sys.snd.total && t.snd.window == sys.snd.window
  {
    match step
    case DeliverData(frame, at) => {
      match frame
      case Chunk(index) => ReceiveKeepsInv(sys, ChunkIn(index, at));
      case End(total) => ReceiveKeepsInv(sys, EndIn(total));
      case Metadata(_) =>
    }
    case TickReceiver(at) => ReceiveKeepsInv(sys, TickIn(at));
    case SeeControl(at) => ReceiveKeepsInv(sys, ControlIn(at));
    case ProcessControl(_) => ProcessKeepsInv(sys);
    case LoseControl(k) => LoseKeepsInv(sys, k);
    case PumpSender => PumpKeepsInv(sys);
  }

  // ---- whole runs --------------------------------------------------------------------------

  predicate CanRun(sys: System, steps: seq<Step>)
    decreases |steps|
  {
    steps == [] || (Enabled(sys, steps[0]) && CanRun(Apply(sys, steps[0]), steps[1..]))
  }

  function Run(sys: System, steps: seq<Step>): System
    requires CanRun(sys, steps)
    decreases |steps|
  {
    if steps == [] then sys else Run(Apply(sys, steps[0]), steps[1..])
  }

  predicate InOrder(steps: seq<Step>) {
    forall i :: 0 <= i < |steps| && steps[i].ProcessControl? ==> steps[i].k == 0
  }

  lemma {:induction false} RunKeepsInv(sys: System, steps: seq<Step>)
    requires Inv(sys) && CanRun(sys, steps) && InOrder(steps)
    ensures Inv(Run(sys, steps))
    ensures var t := Run(sys, steps);
            && sys.snd.base <= t.snd.base && sys.snd.next <= t.snd.next
            && sys.rcv.expected <= t.rcv.expected
            && t.snd.total == sys.snd.total && t.snd.window == sys.snd.window
    decreases |steps|
  {
    if steps == [] {
    } else {
      StepKeepsInv(sys, steps[0]);
      RunKeepsInv(Apply(sys, steps[0]), steps[1..]);
    }
  }

  /** The window theorem: from any resume point, after any run in which data is lost, repeated and
      reordered at will and control is lost but not reordered,
      `base <= expected <= next == min(total, base + window)`. So the unsigned `next - base` never
      wraps, the sender is never more than one window ahead, and its window is always full. */
  lemma WindowHolds(total: nat, window: nat, batch: nat, ackInterval: nat, stallTimeout: nat, from: nat,
                    steps: seq<Step>)
    requires total < U64 && 1 <= window < U64 && batch >= 1 && from <= total
    requires var sys := Start(total, window, batch, ackInterval, stallTimeout, from);
             CanRun(sys, steps) && InOrder(steps)
    ensures var t := Run(Start(total, window, batch, ackInterval, stallTimeout, from), steps);
            && from <= t.snd.base <= t.rcv.expected <= t.snd.next == Min(total, t.snd.base + window)
            && WrappingSub(t.snd.next, t.snd.base) == t.snd.next - t.snd.base <= window
            && (t.rcv.done ==> t.rcv.expected == total && t.snd.next == total && t.snd.endSent)
  {
    var sys := Start(total, window, batch, ackInterval, stallTimeout, from);
    assert sys.snd.total == total && sys.snd.window == window && sys.snd.base == from;
    StartInv(total, window, batch, ackInterval, stallTimeout, from);
    hide *;
    RunKeepsInv(sys, steps);
    InvMeans(Run(sys, steps));
  }

  lemma InvMeans(sys: System)
    requires Inv(sys)
    ensures var s, r := sys.snd, sys.rcv;
            && s.base < U64 && s.next < U64 && s.base <= r.expected <= s.next == Min(s.total, s.base + s.window)
            && WrappingSub(s.next, s.base) == s.next - s.base <= s.window
            && (r.done ==> r.expected == s.total && s.next == s.total && s.endSent)
  {
    hide ControlInOrder;
  }

  /** Between two points of one run the sender's `sent_through` never falls, gap requests included,
      and once everything has been sent it stays so. */
  lemma SentThroughNeverFalls(total: nat, window: nat, batch: nat, from: nat, early: seq<Step>, late: seq<Step>)
    requires total < U64 && 1 <= window < U64 && batch >= 1 && from <= total
    requires CanRun(Start(total, window, batch, 250, 5000, from), early) && InOrder(early)
    requires CanRun(Run(Start(total, window, batch, 250, 5000, from), early), late) && InOrder(late)
    ensures var mid := Run(Start(total, window, batch, 250, 5000, from), early);
            var end := Run(mid, late);
            && mid.snd.base <= end.snd.base
            && (SentThrough(mid.snd).Some? ==>
                  SentThrough(end.snd).Some? && SentThrough(mid.snd).value <= SentThrough(end.snd).value)
            && (mid.snd.endSent ==> end.snd.endSent)
  {
    var sys := Start(total, window, batch, 250, 5000, from);
    StartInv(total, window, batch, 250, 5000, from);
    RunKeepsInv(sys, early);
    RunKeepsInv(Run(sys, early), late);
  }

  // ---- control out of order ------------------------------------------------------------------

  /** The sender's loop keeps acknowledgements and requests in two queues and empties the first
      before it looks at the second. */
  ghost predicate AcksFirst(control: seq<ReceiverAction>, k: nat) {
    k < |control| && (control[k].Request? ==> forall j :: 0 <= j < |control| ==> !control[j].Ack?)
    && forall j :: 0 <= j < k ==> !(control[j].Ack? && control[k].Ack?)
  }

  ghost predicate CanRunAcksFirst(sys: System, steps: seq<Step>)
    decreases |steps|
  {
    steps == [] ||
    (&& Enabled(sys, steps[0])
     && (steps[0].ProcessControl? ==> AcksFirst(sys.control, steps[0].k))
     && CanRunAcksFirst(Apply(sys, steps[0]), steps[1..]))
  }

  /** The run leads from one state to the other, with acknowledgements handled first throughout. */
  ghost predicate Reaches(sys: System, steps: seq<Step>, t: System) {
    CanRunAcksFirst(sys, steps) && CanRun(sys, steps) && Run(sys, steps) == t
  }

  lemma NoStep(sys: System)
    ensures Reaches(sys, [], sys)
  {
  }

  lemma OneStep(sys: System, step: Step)
    requires Enabled(sys, step) && (step.ProcessControl? ==> AcksFirst(sys.control, step.k))
    ensures Reaches(sys, [step], Apply(sys, step))
  {
    var t := Apply(sys, step);
    hide Apply, Enabled;
    assert [step][1..] == [];
    assert CanRunAcksFirst(t, []) && CanRun(t, []) && Run(t, []) == t;
  }

  lemma {:induction false} Then(sys: System, first: seq<Step>, mid: System, second: seq<Step>, t: System)
    requires Reaches(sys, first, mid) && Reaches(mid, second, t)
    ensures Reaches(sys, first + second, t)
    decreases |first|
  {
    hide Apply, Enabled;
    if first == [] {
      assert first + second == second;
    } else {
      var next := Apply(sys, first[0]);
      assert (first + second)[1..] == first[1..] + second;
      assert Reaches(next, first[1..], mid);
      Then(next, first[1..], mid, second, t);
    }
  }

  /** The receiver awaits this chunk. */
  ghost predicate Waiting(r: ReceiverState, expected: nat, batch: nat) {
    r.Valid() && r.expected == expected && r.batch == batch && !r.done
  }

  function DueAck(e: nat, batch: nat): seq<ReceiverAction>
    requires batch >= 1
  {
    if (e + 1) % batch == 0 then [Ack(e)] else []
  }

  /** The acknowledgements due while the chunks from `lo` to `hi` arrive. */
  function DueAcks(lo: nat, hi: nat, batch: nat): (acks: seq<ReceiverAction>)
    requires batch >= 1 && lo <= hi
    ensures forall k :: 0 <= k < |acks| ==> acks[k].Ack? && acks[k].through < hi
    decreases hi
  {
    if lo == hi then [] else DueAcks(lo, hi - 1, batch) + DueAck(hi - 1, batch)
  }

  lemma DeliverNext(sys: System, i: nat, at: nat, batch: nat)
    requires Waiting(sys.rcv, i, batch) && Chunk(i) in sys.sent
    ensures Enabled(sys, DeliverData(Chunk(i), at))
    ensures var t := Apply(sys, DeliverData(Chunk(i), at));
            && Waiting(t.rcv, i + 1, batch) && t.control == sys.control + DueAck(i, batch)
            && t.snd == sys.snd && t.sent == sys.sent
  {
    var a := ChunkActions(sys.rcv, i);
    if (i + 1) % batch == 0 {
      assert a == [Deliver(i), ReceiverAction.Ack(i)];
      assert a[1..] == [ReceiverAction.Ack(i)];
      assert Controls(a[1..]) == [ReceiverAction.Ack(i)];
    } else {
      assert a == [Deliver(i)];
    }
  }

  lemma {:induction false} DeliverRange(sys: System, lo: nat, hi: nat, batch: nat) returns (steps: seq<Step>, t: System)
    requires batch >= 1 && lo <= hi && Waiting(sys.rcv, lo, batch) && forall i :: lo <= i < hi ==> Chunk(i) in sys.sent
    ensures Reaches(sys, steps, t)
    ensures Waiting(t.rcv, hi, batch) && t.control == sys.control + DueAcks(lo, hi, batch)
    ensures t.snd == sys.snd && t.sent == sys.sent
    decreases hi
  {
    hide Apply, Enabled, Reaches, Waiting;
    if lo == hi {
      steps, t := [], sys;
      NoStep(sys);
    } else {
      var before, mid := DeliverRange(sys, lo, hi - 1, batch);
      var step := DeliverData(Chunk(hi - 1), 5000);
      DeliverNext(mid, hi - 1, 5000, batch);
      t := Apply(mid, step);
      steps := before + [step];
      OneStep(mid, step);
      Then(sys, before, mid, [step], t);
    }
  }

  lemma StallOnce(sys: System, batch: nat) returns (steps: seq<Step>, t: System)
    requires batch >= 1 && sys.rcv == NewReceiver(batch, 250, 5000, 0)
    ensures Reaches(sys, steps, t)
    ensures Waiting(t.rcv, 0, batch) && t.control == sys.control + [Request(0)]
    ensures t.snd == sys.snd && t.sent == sys.sent
  {
    var mid := Apply(sys, SeeControl(1));
    assert mid.rcv == sys.rcv.(lastControlAt := 1) && mid.control == sys.control;
    assert TickActions(mid.rcv, 5000) == [Request(0)] && [Request(0)][1..] == [];
    assert Controls([Request(0)]) == [Request(0)];
    t := Apply(mid, TickReceiver(5000));
    steps := [SeeControl(1)] + [TickReceiver(5000)];
    OneStep(sys, SeeControl(1));
    OneStep(mid, TickReceiver(5000));
    hide Apply, Reaches;
    Then(sys, [SeeControl(1)], mid, [TickReceiver(5000)], t);
  }

  /** An upright sender with a full window, everything up to its cursor sent. */
  ghost predicate Upright(sys: System) {
    var s := sys.snd;
    && s.Valid() && s.base <= s.next && s.next >= Min(s.total, s.base + s.window)
    && forall i :: 0 <= i < s.next ==> Chunk(i) in sys.sent
  }

  lemma AckOnce(sys: System, k: nat)
    requires Upright(sys) && sys.rcv.Valid()
    requires k < |sys.control| && sys.control[k].Ack? && sys.control[k].through < sys.snd.next
    ensures Enabled(sys, ProcessControl(k))
    ensures var t := Apply(sys, ProcessControl(k));
            && Upright(t) && t.rcv == sys.rcv && t.control == sys.control[..k] + sys.control[k + 1..]
            && t.snd.total == sys.snd.total && t.snd.window == sys.snd.window && sys.snd.next <= t.snd.next
            && t.snd.base >= sys.snd.base && t.snd.base >= sys.control[k].through + 1
  {
    var s, through := sys.snd, sys.control[k].through;
    var t := Apply(sys, ProcessControl(k));
    assert t.snd == AfterAck(s, through) && t.sent == sys.sent + AsSet(AckActions(s, through));
    assert Acked(s, through).base <= s.next;
    forall i | 0 <= i < t.snd.next
      ensures Chunk(i) in t.sent
    {
      if i >= s.next {
        assert AckActions(s, through)[i - s.next] == Chunk(i);
      }
    }
  }

  /** Handling the acknowledgements behind a request. */
  lemma {:induction false} AcksOvertake(sys: System, acks: seq<ReceiverAction>) returns (steps: seq<Step>, t: System)
    requires Upright(sys) && sys.rcv.Valid() && sys.control == [Request(0)] + acks
    requires forall k :: 0 <= k < |acks| ==> acks[k].Ack? && acks[k].through < sys.snd.next
    ensures Reaches(sys, steps, t)
    ensures Upright(t) && t.control == [Request(0)] && t.rcv == sys.rcv
    ensures t.snd.total == sys.snd.total && t.snd.window == sys.snd.window && t.snd.base >= sys.snd.base
    ensures acks != [] ==> t.snd.base >= acks[|acks| - 1].through + 1
    decreases |acks|
  {
    hide Apply, Enabled, Reaches, Upright;
    if acks == [] {
      steps, t := [], sys;
      NoStep(sys);
    } else {
      assert sys.control[1] == acks[0];
      AckOnce(sys, 1);
      var mid := Apply(sys, ProcessControl(1));
      assert sys.control[..1] + sys.control[2..] == [Request(0)] + acks[1..];
      var rest;
      rest, t := AcksOvertake(mid, acks[1..]);
      steps := [ProcessControl(1)] + rest;
      OneStep(sys, ProcessControl(1));
      Then(sys, [ProcessControl(1)], mid, rest, t);
    }
  }

  lemma RequestLate(sys: System) returns (steps: seq<Step>, t: System)
    requires sys.snd.Valid() && sys.rcv.Valid() && sys.control == [Request(0)]
    ensures Reaches(sys, steps, t)
    ensures t.snd == Opened(sys.snd, 0) && t.control == [] && t.rcv == sys.rcv && sys.sent <= t.sent
  {
    steps, t := [ProcessControl(0)], Apply(sys, ProcessControl(0));
    assert sys.control[..0] + sys.control[1..] == [];
    OneStep(sys, ProcessControl(0));
  }

  lemma {:induction false} NoneDue(n: nat, batch: nat, k: nat)
    requires k < batch
    ensures DueAcks(batch * n, batch * n + k, batch) == []
    decreases k
  {
    if k == 0 {
    } else {
      NoneDue(n, batch, k - 1);
      ModOf(batch, n, k);
    }
  }

  /** Within one batch only its last chunk makes an acknowledgement due. */
  lemma OneDue(n: nat, batch: nat)
    requires batch >= 1
    ensures batch * (n + 1) == batch * n + batch
    ensures DueAcks(batch * n, batch * (n + 1), batch) == [ReceiverAction.Ack(batch * (n + 1) - 1)]
  {
    NoneDue(n, batch, batch - 1);
    assert batch * (n + 1) == batch * n + batch;
    ModOf(batch, n + 1, 0);
  }

  /** The last chunk of a whole number of batches makes the last acknowledgement due. */
  lemma LastDue(n: nat, batch: nat)
    requires batch >= 1 && n >= 1
    ensures batch * n >= 1
    ensures var acks := DueAcks(0, batch * n, batch);
            acks != [] && acks[|acks| - 1] == ReceiverAction.Ack(batch * n - 1)
  {
    assert batch * n == batch * (n - 1) + batch;
    ModOf(batch, n, 0);
  }

  lemma AckAhead(sys: System, through: nat) returns (steps: seq<Step>, t: System)
    requires sys.rcv.Valid() && sys.control == [ReceiverAction.Ack(through)] && 1 <= sys.snd.window
    requires sys.snd == SenderState(sys.snd.total, sys.snd.window, 0, sys.snd.window, false)
    requires sys.snd.window <= through < sys.snd.total < U64
    ensures Reaches(sys, steps, t)
    ensures t.rcv == sys.rcv && t.snd == sys.snd.(base := through + 1) && t.control == [] && PumpActions(t.snd) == []
  {
    steps, t := [ProcessControl(0)], Apply(sys, ProcessControl(0));
    assert sys.control[..0] + sys.control[1..] == [];
    OneStep(sys, ProcessControl(0));
    AckKeepsWindowIff(sys.snd, through);
    assert t.snd == AfterAck(sys.snd, through);
  }

  lemma WholeBatches(window: nat, batch: nat)
    requires 1 <= batch <= window
    ensures var q := window / batch; q >= 1 && batch * q <= window < batch * (q + 1) == batch * q + batch
  {
  }

  lemma StartUpright(total: nat, window: nat, batch: nat)
    requires 1 <= batch <= window < total < U64
    ensures var t := Start(total, window, batch, 250, 5000, 0);
            && Upright(t) && t.snd == SenderState(total, window, 0, window, false)
            && t.rcv == NewReceiver(batch, 250, 5000, 0) && t.control == []
  {
    var s := Fresh(total, window);
    OpenSendsOneWindow(s, 0);
    forall i | 0 <= i < window
      ensures Chunk(i) in AsSet(OpenActions(s, 0))
    {
      assert OpenActions(s, 0)[i + 1] == Chunk(i);
    }
  }

  lemma UprightStays(sys: System, t: System)
    requires Upright(sys) && t.snd == sys.snd && sys.sent <= t.sent
    ensures Upright(t)
  {
  }

  lemma UprightIsValid(sys: System)
    requires Upright(sys)
    ensures sys.snd.Valid()
  {
  }

  lemma SentUpTo(sys: System, hi: nat)
    requires Upright(sys) && hi <= sys.snd.total && hi <= sys.snd.base + sys.snd.window
    ensures hi <= sys.snd.next && forall i :: 0 <= i < hi ==> Chunk(i) in sys.sent
  {
  }

  lemma OpenedAtZero(s: SenderState)
    requires s.window < s.total
    ensures Opened(s, 0) == SenderState(s.total, s.window, 0, s.window, false)
  {
  }

  lemma WaitingIsValid(r: ReceiverState, expected: nat, batch: nat)
    requires Waiting(r, expected, batch)
    ensures r.Valid() && !r.done
  {
  }

  lemma ReachesMeans(sys: System, steps: seq<Step>, t: System)
    requires Reaches(sys, steps, t)
    ensures CanRunAcksFirst(sys, steps) && CanRun(sys, steps) && Run(sys, steps) == t
  {
  }

  /** The first part of that run: the request was asked for, overtaken, and has rewound the sender. */
  lemma RequestOvertaken(t0: System, batch: nat, q: nat, held: nat, more: nat) returns (steps: seq<Step>, t: System)
    requires Upright(t0) && t0.rcv == NewReceiver(batch, 250, 5000, 0) && t0.control == []
    requires var s := t0.snd; s == SenderState(s.total, s.window, 0, s.window, false)
    requires q >= 1 && 1 <= batch && held == batch * q && more == held + batch
    requires held <= t0.snd.window < more <= t0.snd.total && batch <= t0.snd.window
    ensures Reaches(t0, steps, t) && t.snd == t0.snd && t.control == [] && Waiting(t.rcv, held, batch)
    ensures forall i :: held <= i < more ==> Chunk(i) in t.sent
  {
    hide *;
    var s1, t1 := StallOnce(t0, batch);
    UprightStays(t0, t1);
    SentUpTo(t1, held);
    var s2, t2 := DeliverRange(t1, 0, held, batch);
    assert [] + [Request(0)] == [Request(0)];
    UprightStays(t1, t2);
    LastDue(q, batch);
    WaitingIsValid(t2.rcv, held, batch);
    var s3, t3 := AcksOvertake(t2, DueAcks(0, held, batch));
    SentUpTo(t3, more);
    UprightIsValid(t3);
    var s4;
    s4, t := RequestLate(t3);
    OpenedAtZero(t3.snd);
    Then(t0, s1, t1, s2, t2);
    Then(t0, s1 + s2, t2, s3, t3);
    Then(t0, s1 + s2 + s3, t3, s4, t);
    steps := s1 + s2 + s3 + s4;
  }

  /** The second part: one more batch is delivered, and its acknowledgement puts `base` ahead of `next`. */
  lemma BatchAhead(t4: System, batch: nat, q: nat, held: nat, more: nat) returns (steps: seq<Step>, t: System)
    requires 1 <= batch && held == batch * q && more == batch * (q + 1) == held + batch
    requires var s := t4.snd; s == SenderState(s.total, s.window, 0, s.window, false) && s.total < U64
    requires 1 <= t4.snd.window < more <= t4.snd.total && t4.control == [] && Waiting(t4.rcv, held, batch)
    requires forall i :: held <= i < more ==> Chunk(i) in t4.sent
    ensures Reaches(t4, steps, t)
    ensures t.snd == t4.snd.(base := more) && t.control == [] && !t.rcv.done && PumpActions(t.snd) == []
  {
    hide *;
    OneDue(q, batch);
    var s5, t5 := DeliverRange(t4, held, more, batch);
    assert [] + [ReceiverAction.Ack(more - 1)] == [ReceiverAction.Ack(more - 1)];
    WaitingIsValid(t5.rcv, more, batch);
    var s6;
    s6, t := AckAhead(t5, more - 1);
    Then(t4, s5, t5, s6, t);
    steps := s5 + s6;
  }

  /** Emission order is needed. For every batch that fits the window, and every payload of one batch more than a window
      holds in whole batches, there is a run of an honest pair with acknowledgements handled before requests that puts
      `base` ahead of `next` with chunks still to send: `next - base` wraps, no control message is left, and the sender
      has nothing to send. The receiver asks once for chunk 0, then gets a window of batches; the acknowledgements
      overtake the request, which rewinds the sender; the next batch, already sent, is acknowledged. */
  lemma AcksFirstInvertsWindow(total: nat, window: nat, batch: nat) returns (steps: seq<Step>)
    requires 1 <= batch <= window && batch * (window / batch + 1) <= total < U64
    ensures var sys := Start(total, window, batch, 250, 5000, 0);
            && CanRunAcksFirst(sys, steps) && CanRun(sys, steps)
            && var t := Run(sys, steps);
            && t.snd.next == window < t.snd.base == batch * (window / batch + 1) && t.snd.next < t.snd.total
            && t.control == [] && !t.rcv.done && PumpActions(t.snd) == []
  {
    hide *;
    var q := window / batch;
    var held, more := batch * q, batch * (q + 1);
    WholeBatches(window, batch);
    var t0 := Start(total, window, batch, 250, 5000, 0);
    StartUpright(total, window, batch);
    var first, t4 := RequestOvertaken(t0, batch, q, held, more);
    var second, t := BatchAhead(t4, batch, q, held, more);
    Then(t0, first, t4, second, t);
    steps := first + second;
    ReachesMeans(t0, steps, t);
  }

  /** With the program's window of 256 and batch of 64, every payload of at least 320 chunks has such a run. */
  lemma ShippedWindowInverts(total: nat) returns (steps: seq<Step>)
    requires 320 <= total < U64
    ensures var sys := Start(total, 256, 64, 250, 5000, 0);
            && CanRunAcksFirst(sys, steps) && CanRun(sys, steps)
            && var t := Run(sys, steps);
            t.snd.next == 256 && t.snd.base == 320 && t.control == [] && !t.rcv.done && PumpActions(t.snd) == []
  {
    hide *;
    steps := AcksFirstInvertsWindow(total, 256, 64);
  }
}
