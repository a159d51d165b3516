/** The receiver's half of the chunk protocol: contiguous progress, acknowledgements, gap requests. */
module ReceiverEngines {
  datatype ReceiverAction =
    | Deliver(index: nat)
    | Ack(through: nat)
    | Request(from: nat)
    | Complete
    | Ignore

  datatype ReceiverState = ReceiverState(
    expected: nat,
    ackedThrough: int,
    lastDataAt: nat,
    lastControlAt: nat,
    lastAckAt: nat,
    done: bool,
    batch: nat,
    ackInterval: nat,
    stallTimeout: nat)
  {
    /** `expected % batch` must be defined, and what is acknowledged has been received. */
    predicate Valid() {
      batch >= 1 && -1 <= ackedThrough < expected
    }
  }

  function Elapsed(now: nat, since: nat): nat {
    if now <= since then 0 else now - since
  }

  // ---- what one call does ----------------------------------------------------------

  function NewReceiver(batch: nat, ackInterval: nat, stallTimeout: nat, resumeFrom: nat): ReceiverState {
    ReceiverState(resumeFrom, resumeFrom - 1, 0, 0, 0, false, batch, ackInterval, stallTimeout)
  }

  function Acknowledged(s: ReceiverState, now: nat): ReceiverState {
    s.(ackedThrough := s.expected - 1, lastAckAt := now)
  }

  function AfterChunk(s: ReceiverState, index: nat, now: nat): ReceiverState
    requires s.Valid()
  {
    if s.done || index != s.expected then s
    else
      var t := s.(expected := s.expected + 1, lastDataAt := now);
      if t.expected % t.batch == 0 then Acknowledged(t, now) else t
  }

  function ChunkActions(s: ReceiverState, index: nat): seq<ReceiverAction>
    requires s.Valid()
  {
    if s.done then []
    else if index < s.expected then [Ignore]
    else if index > s.expected then [Request(s.expected)]
    else [Deliver(index)] + (if (s.expected + 1) % s.batch == 0 then [Ack(s.expected)] else [])
  }

  predicate AckDue(s: ReceiverState, now: nat) {
    s.expected - 1 > s.ackedThrough && Elapsed(now, s.lastAckAt) >= s.ackInterval
  }

  predicate Stalled(s: ReceiverState, now: nat) {
    s.lastControlAt > 0 && s.lastControlAt >= s.lastDataAt && Elapsed(now, s.lastDataAt) >= s.stallTimeout
  }

  function AfterTick(s: ReceiverState, now: nat): ReceiverState {
    if s.done then s
    else
      var t := if AckDue(s, now) then Acknowledged(s, now) else s;
      if Stalled(s, now) then t.(lastDataAt := now) else t
  }

  function TickActions(s: ReceiverState, now: nat): seq<ReceiverAction>
    requires s.Valid()
  {
    if s.done then []
    else
      (if AckDue(s, now) then [Ack(s.expected - 1)] else [])
      + (if Stalled(s, now) then [Request(s.expected)] else [])
  }

  function AfterEnd(s: ReceiverState, total: nat): ReceiverState {
    s.(done := s.done || s.expected == total)
  }

  function EndActions(s: ReceiverState, total: nat): seq<ReceiverAction> {
    if s.done then [] else if s.expected == total then [Complete] else [Request(s.expected)]
  }

  // ---- the engine --------------------------------------------------------------------

  class ReceiverEngine {
    var expected: nat
    var ackedThrough: int
    var lastDataAt: nat
    var lastControlAt: nat
    var lastAckAt: nat
    var done: bool
    var batch: nat
    var ackInterval: nat
    var stallTimeout: nat

    ghost function State(): ReceiverState
      reads this
    {
      ReceiverState(expected, ackedThrough, lastDataAt, lastControlAt, lastAckAt, done,
                    batch, ackInterval, stallTimeout)
    }

    ghost predicate Valid()
      reads this
    {
      State().Valid()
    }

    constructor (batch: nat, ackInterval: nat, stallTimeout: nat, resumeFrom: nat)
      requires batch >= 1
      ensures Valid() && State() == NewReceiver(batch, ackInterval, stallTimeout, resumeFrom)
      ensures expected == resumeFrom && ackedThrough == resumeFrom - 1 && !done
      ensures lastDataAt == lastControlAt == lastAckAt == 0
      ensures this.batch == batch && this.ackInterval == ackInterval && this.stallTimeout == stallTimeout
    {
      expected, ackedThrough := resumeFrom, resumeFrom - 1;
      lastDataAt, lastControlAt, lastAckAt := 0, 0, 0;
      done := false;
      this.batch, this.ackInterval, this.stallTimeout := batch, ackInterval, stallTimeout;
    }

    method ReceiveChunk(index: nat, now: nat) returns (actions: seq<ReceiverAction>)
      requires Valid()
      modifies this
      ensures Valid()
      ensures State() == AfterChunk(old(State()), index, now)
      ensures actions == ChunkActions(old(State()), index)
    {
      if done {
        return [];
      }
      if index < expected {
        return [Ignore];
      }
      if index > expected {
        return [Request(expected)];
      }
      actions := [Deliver(index)];
      expected := expected + 1;
      lastDataAt := now;
      if expected % batch == 0 {
        var ack := EmitAck(now);
        actions := actions + [ack];
      }
    }

    method ControlActivity(now: nat)
      requires Valid()
      modifies this
      ensures Valid()
      ensures State() == old(State()).(lastControlAt := now)
    {
      lastControlAt := now;
    }

    method Tick(now: nat) returns (actions: seq<ReceiverAction>)
      requires Valid()
      modifies this
      ensures Valid()
      ensures State() == AfterTick(old(State()), now)
      ensures actions == TickActions(old(State()), now)
    {
      if done {
        return [];
      }
      actions := [];
      if expected - 1 > ackedThrough && Elapsed(now, lastAckAt) >= ackInterval {
        var ack := EmitAck(now);
        actions := actions + [ack];
      }
      if lastControlAt > 0 && lastControlAt >= lastDataAt && Elapsed(now, lastDataAt) >= stallTimeout {
        actions := actions + [Request(expected)];
        lastDataAt := now;
      }
    }

    method ReceiveEnd(total: nat) returns (actions: seq<ReceiverAction>)
      requires Valid()
      modifies this
      ensures Valid()
      ensures State() == AfterEnd(old(State()), total)
      ensures actions == EndActions(old(State()), total)
    {
      if done {
        return [];
      }
      if expected == total {
        done := true;
        actions := [Complete];
      } else {
        actions := [Request(expected)];
      }
    }

    method EmitAck(now: nat) returns (action: ReceiverAction)
      requires expected >= 1
      modifies this`ackedThrough, this`lastAckAt
      ensures ackedThrough == expected - 1 && lastAckAt == now
      ensures action == Ack(expected - 1)
    {
      ackedThrough := expected - 1;
      lastAckAt := now;
      action := Ack(expected - 1);
    }
  }

  // ---- whole runs ----------------------------------------------------------------------

  /** Everything that can reach the engine, in any order and from any sender. */
  datatype Input =
    | ChunkIn(index: nat, at: nat)
    | EndIn(total: nat)
    | TickIn(at: nat)
    | ControlIn(at: nat)

  function Next(s: ReceiverState, i: Input): (t: ReceiverState)
    requires s.Valid()
    ensures t.Valid()
  {
    match i
    case ChunkIn(index, at) => AfterChunk(s, index, at)
    case EndIn(total) => AfterEnd(s, total)
    case TickIn(at) => AfterTick(s, at)
    case ControlIn(at) => s.(lastControlAt := at)
  }

  function Actions(s: ReceiverState, i: Input): seq<ReceiverAction>
    requires s.Valid()
  {
    match i
    case ChunkIn(index, _) => ChunkActions(s, index)
    case EndIn(total) => EndActions(s, total)
    case TickIn(at) => TickActions(s, at)
    case ControlIn(_) => []
  }

  function RunState(s: ReceiverState, inputs: seq<Input>): (t: ReceiverState)
    requires s.Valid()
    ensures t.Valid()
    decreases |inputs|
  {
    if inputs == [] then s else RunState(Next(s, inputs[0]), inputs[1..])
  }

  function RunActions(s: ReceiverState, inputs: seq<Input>): seq<ReceiverAction>
    requires s.Valid()
    decreases |inputs|
  {
    if inputs == [] then [] else Actions(s, inputs[0]) + RunActions(Next(s, inputs[0]), inputs[1..])
  }

  // ---- the reference: what an observer may see, told without the engine ------------------

  function Deliveries(actions: seq<ReceiverAction>): seq<nat> {
    if actions == [] then []
    else (if actions[0].Deliver? then [actions[0].index] else []) + Deliveries(actions[1..])
  }

  /** `from, from + 1, ..., from + n - 1`. */
  function Range(from: nat, n: nat): (r: seq<nat>)
    ensures |r| == n
    ensures forall k :: 0 <= k < n ==> r[k] == from + k
  {
    seq(n, k requires 0 <= k < n => from + k)
  }

  /** The traces an observer accepts who has seen everything below `at` delivered and everything
      through `acked` acknowledged: only the next chunk is delivered, only what has been delivered is
      acknowledged and never twice, only the first missing chunk is requested, nothing follows a
      completion. */
  predicate Honest(at: nat, acked: int, actions: seq<ReceiverAction>)
    decreases |actions|
  {
    actions == [] ||
    match actions[0]
    case Deliver(index) => index == at && Honest(at + 1, acked, actions[1..])
    case Ack(through) => acked < through == at - 1 && Honest(at, through, actions[1..])
    case Request(from) => from == at && Honest(at, acked, actions[1..])
    case Complete => actions[1..] == []
    case Ignore => Honest(at, acked, actions[1..])
  }

  ghost predicate Completes(actions: seq<ReceiverAction>) {
    exists k :: 0 <= k < |actions| && actions[k].Complete?
  }

  lemma OneMoreHonest(x: ReceiverAction, later: seq<ReceiverAction>, at: nat, acked: int)
    ensures Honest(at, acked, [x] + later)
            <==> match x
                 case Deliver(index) => index == at && Honest(at + 1, acked, later)
                 case Ack(through) => acked < through == at - 1 && Honest(at, through, later)
                 case Request(from) => from == at && Honest(at, acked, later)
                 case Complete => later == []
                 case Ignore => Honest(at, acked, later)
    ensures Deliveries([x] + later) == (if x.Deliver? then [x.index] else []) + Deliveries(later)
  {
    assert ([x] + later)[1..] == later;
  }

  lemma HonestStep(s: ReceiverState, i: Input, later: seq<ReceiverAction>)
    requires s.Valid()
    requires var t := Next(s, i); Honest(t.expected, t.ackedThrough, later) && (t.done ==> later == [])
    ensures Honest(s.expected, s.ackedThrough, Actions(s, i) + later)
    ensures |Deliveries(Actions(s, i) + later)|
            == Next(s, i).expected - s.expected + |Deliveries(later)|
  {
    hide Honest, Deliveries;
    var a := Actions(s, i);
    if |a| == 0 {
      assert a + later == later;
    } else if |a| == 1 {
      assert a + later == [a[0]] + later;
      OneMoreHonest(a[0], later, s.expected, s.ackedThrough);
    } else {
      assert a + later == [a[0]] + ([a[1]] + later);
      var at := if a[0].Deliver? then s.expected + 1 else s.expected;
      var acked := if a[0].Ack? then a[0].through else s.ackedThrough;
      OneMoreHonest(a[1], later, at, acked);
      OneMoreHonest(a[0], [a[1]] + later, s.expected, s.ackedThrough);
    }
  }

  /** Exactly-once, in-order delivery over every input sequence, honest or not: the run's whole trace
      is one the observer accepts, as many chunks were delivered as the engine advanced, and the run
      completes only on an end frame that names exactly where the engine stands. */
  lemma {:induction false} RunIsHonest(s: ReceiverState, inputs: seq<Input>)
    requires s.Valid()
    ensures var t, a := RunState(s, inputs), RunActions(s, inputs);
            && Honest(s.expected, s.ackedThrough, a)
            && t.expected == s.expected + |Deliveries(a)|
            && (s.done ==> a == [] && t.done)
            && (Completes(a) <==> t.done && !s.done)
            && (t.done && !s.done ==> EndIn(t.expected) in inputs)
    decreases |inputs|
  {
    if inputs != [] {
      var t, a := Next(s, inputs[0]), Actions(s, inputs[0]);
      StepCompletes(s, inputs[0]);
      hide Next, Actions, Honest, Completes, Deliveries, ReceiverState.Valid;
      var b := RunActions(t, inputs[1..]);
      RunIsHonest(t, inputs[1..]);
      HonestStep(s, inputs[0], b);
      CompletesConcat(a, b);
    } else {
      assert !Completes([]);
    }
  }

  lemma StepCompletes(s: ReceiverState, i: Input)
    requires s.Valid()
    ensures Completes(Actions(s, i)) <==> Next(s, i).done && !s.done
    ensures s.done ==> Actions(s, i) == [] && Next(s, i).done
    ensures Next(s, i).done && !s.done ==> i == EndIn(Next(s, i).expected)
    ensures s.done ==> Next(s, i).expected == s.expected
  {
    if Next(s, i).done && !s.done {
      assert Actions(s, i)[0].Complete?;
    }
  }

  lemma CompletesConcat(a: seq<ReceiverAction>, b: seq<ReceiverAction>)
    ensures Completes(a + b) <==> Completes(a) || Completes(b)
  {
    if Completes(a) {
      var k :| 0 <= k < |a| && a[k].Complete?;
      assert (a + b)[k].Complete?;
    }
    if Completes(b) {
      var k :| 0 <= k < |b| && b[k].Complete?;
      assert (a + b)[|a| + k].Complete?;
    }
  }

  lemma {:induction false} HonestDeliveries(at: nat, acked: int, actions: seq<ReceiverAction>)
    requires Honest(at, acked, actions)
    ensures Deliveries(actions) == Range(at, |Deliveries(actions)|)
    decreases |actions|
  {
    if actions == [] {
    } else {
      if actions[0].Deliver? {
        HonestDeliveries(at + 1, acked, actions[1..]);
      } else if !actions[0].Complete? {
        HonestDeliveries(at, if actions[0].Ack? then actions[0].through else acked, actions[1..]);
      }
    }
  }

  /** What acceptance means at each position `k`: a delivery is the chunk after all those delivered
      before `k`; an acknowledgement names the last of those chunks, and more than was acknowledged
      before; a request names the first chunk not among them; a completion is the last action. */
  lemma {:induction false} HonestMeans(at: nat, acked: int, actions: seq<ReceiverAction>, k: nat)
    requires Honest(at, acked, actions) && k < |actions|
    ensures match actions[k]
            case Deliver(index) => index == at + |Deliveries(actions[..k])|
            case Ack(through) => acked < through == at + |Deliveries(actions[..k])| - 1
            case Request(from) => from == at + |Deliveries(actions[..k])|
            case Complete => k == |actions| - 1
            case Ignore => true
    decreases k
  {
    if k == 0 {
    } else {
      assert actions[..k][1..] == actions[1..][..k - 1];
      if actions[0].Deliver? {
        HonestMeans(at + 1, acked, actions[1..], k - 1);
      } else {
        HonestMeans(at, if actions[0].Ack? then actions[0].through else acked, actions[1..], k - 1);
      }
    }
  }

  /** Acknowledgements strictly increase. */
  lemma {:induction false} HonestAcksIncrease(at: nat, acked: int, actions: seq<ReceiverAction>, j: nat, k: nat)
    requires Honest(at, acked, actions) && j < k < |actions| && actions[j].Ack? && actions[k].Ack?
    ensures actions[j].through < actions[k].through
    decreases j
  {
    if j == 0 {
      HonestMeans(at, actions[0].through, actions[1..], k - 1);
    } else if actions[0].Deliver? {
      HonestAcksIncrease(at + 1, acked, actions[1..], j - 1, k - 1);
    } else {
      HonestAcksIncrease(at, if actions[0].Ack? then actions[0].through else acked, actions[1..], j - 1, k - 1);
    }
  }

  /** When every end frame is the honest sender's, completion means that all chunks from the
      resume point to `total` were delivered, each once and in order. */
  lemma CompletionMeansEverything(s: ReceiverState, total: nat, inputs: seq<Input>)
    requires s.Valid() && !s.done
    requires forall i :: 0 <= i < |inputs| && inputs[i].EndIn? ==> inputs[i].total == total
    ensures RunState(s, inputs).done ==>
              s.expected <= total
              && Deliveries(RunActions(s, inputs)) == Range(s.expected, total - s.expected)
  {
    RunIsHonest(s, inputs);
    HonestDeliveries(s.expected, s.ackedThrough, RunActions(s, inputs));
  }
}
