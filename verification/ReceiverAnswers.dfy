/** When the receiver's engine speaks: the answer to every input, told from what it said before. */
module ReceiverAnswers {
  import opened ReceiverEngines

  /** What was said up to input `k`. */
  function Said(s: ReceiverState, inputs: seq<Input>, k: nat): seq<ReceiverAction>
    requires s.Valid() && k <= |inputs|
  {
    RunActions(s, inputs[..k])
  }

  /** The answer to input `k`. */
  function AnswerAt(s: ReceiverState, inputs: seq<Input>, k: nat): seq<ReceiverAction>
    requires s.Valid() && k < |inputs|
  {
    Actions(RunState(s, inputs[..k]), inputs[k])
  }

  lemma {:induction false} RunMore(s: ReceiverState, inputs: seq<Input>, i: Input)
    requires s.Valid()
    ensures RunState(s, inputs + [i]) == Next(RunState(s, inputs), i)
    ensures RunActions(s, inputs + [i]) == RunActions(s, inputs) + Actions(RunState(s, inputs), i)
    decreases |inputs|
  {
    hide Next, Actions;
    if inputs == [] {
      assert [i][1..] == [];
      assert Actions(s, i) + [] == [] + Actions(s, i);
    } else {
      assert (inputs + [i])[1..] == inputs[1..] + [i];
      RunMore(Next(s, inputs[0]), inputs[1..], i);
    }
  }

  lemma AnswersAdd(s: ReceiverState, inputs: seq<Input>, k: nat)
    requires s.Valid() && k < |inputs|
    ensures Said(s, inputs, k + 1) == Said(s, inputs, k) + AnswerAt(s, inputs, k)
    ensures RunState(s, inputs[..k + 1]) == Next(RunState(s, inputs[..k]), inputs[k])
  {
    assert inputs[..k + 1] == inputs[..k] + [inputs[k]];
    RunMore(s, inputs[..k], inputs[k]);
  }

  // ---- clocks ------------------------------------------------------------------------------------------------

  predicate Acks(answer: seq<ReceiverAction>) {
    exists n :: 0 <= n < |answer| && answer[n].Ack?
  }

  predicate Delivers(answer: seq<ReceiverAction>) {
    exists n :: 0 <= n < |answer| && answer[n].Deliver?
  }

  predicate Requests(answer: seq<ReceiverAction>) {
    exists n :: 0 <= n < |answer| && answer[n].Request?
  }

  datatype Clock = AckClock | DataClock | ControlClock

  /** An acknowledgement resets the first clock; a delivery, or a request made on a tick, the second; being heard on the
      control channel the third. */
  predicate Resets(clock: Clock, i: Input, answer: seq<ReceiverAction>) {
    match clock
    case AckClock => Acks(answer)
    case DataClock => Delivers(answer) || (i.TickIn? && Requests(answer))
    case ControlClock => i.ControlIn?
  }

  function TimeOf(i: Input): nat {
    if i.EndIn? then 0 else i.at
  }

  function Reading(s: ReceiverState, clock: Clock): nat {
    match clock
    case AckClock => s.lastAckAt
    case DataClock => s.lastDataAt
    case ControlClock => s.lastControlAt
  }

  lemma ClockStep(s: ReceiverState, i: Input, clock: Clock)
    requires s.Valid()
    ensures Reading(Next(s, i), clock) == if Resets(clock, i, Actions(s, i)) then TimeOf(i) else Reading(s, clock)
  {
    var a := Actions(s, i);
    if i.ChunkIn? && !s.done && i.index == s.expected {
      assert a[0].Deliver?;
      assert (s.expected + 1) % s.batch == 0 ==> a[1].Ack?;
    }
    if i.TickIn? && !s.done {
      assert AckDue(s, i.at) ==> a[0].Ack?;
      assert Stalled(s, i.at) ==> a[|a| - 1].Request?;
    }
    hide AckDue, Stalled;
  }

  predicate ResetAt(s: ReceiverState, inputs: seq<Input>, j: nat, clock: Clock)
    requires s.Valid() && j < |inputs|
  {
    Resets(clock, inputs[j], AnswerAt(s, inputs, j))
  }

  /** Over every input sequence a clock shows the time of the last input that reset it, or what it showed at first. */
  lemma {:induction false} ClocksMean(s: ReceiverState, inputs: seq<Input>, k: nat, clock: Clock, j: int)
    requires s.Valid() && k <= |inputs| && -1 <= j < k
    requires j >= 0 ==> ResetAt(s, inputs, j, clock)
    requires forall n :: j < n < k ==> !ResetAt(s, inputs, n, clock)
    ensures Reading(RunState(s, inputs[..k]), clock) == if j >= 0 then TimeOf(inputs[j]) else Reading(s, clock)
    decreases k
  {
    if k == 0 {
    } else {
      AnswersAdd(s, inputs, k - 1);
      ClockStep(RunState(s, inputs[..k - 1]), inputs[k - 1], clock);
      hide Next, Actions, Resets, RunState;
      if j < k - 1 {
        assert !ResetAt(s, inputs, k - 1, clock);
        ClocksMean(s, inputs, k - 1, clock, j);
      } else {
        assert ResetAt(s, inputs, k - 1, clock);
      }
    }
  }

  // ---- what was acknowledged ---------------------------------------------------------------------------------

  /** The last acknowledgement among these actions, or `before`. */
  function LastAck(before: int, actions: seq<ReceiverAction>): int {
    if actions == [] then before
    else
      var last := actions[|actions| - 1];
      if last.Ack? then last.through else LastAck(before, actions[..|actions| - 1])
  }

  lemma LastAckMore(before: int, actions: seq<ReceiverAction>, x: ReceiverAction)
    ensures LastAck(before, actions + [x]) == if x.Ack? then x.through else LastAck(before, actions)
  {
    assert (actions + [x])[..|actions|] == actions;
  }

  lemma AckStep(s: ReceiverState, i: Input, before: int, said: seq<ReceiverAction>)
    requires s.Valid() && LastAck(before, said) == s.ackedThrough
    ensures LastAck(before, said + Actions(s, i)) == Next(s, i).ackedThrough
  {
    var a := Actions(s, i);
    hide LastAck, AckDue, Stalled;
    if |a| == 0 {
      assert said + a == said;
    } else {
      LastAckMore(before, said, a[0]);
      if |a| == 2 {
        assert said + a == (said + [a[0]]) + [a[1]];
        LastAckMore(before, said + [a[0]], a[1]);
      } else {
        assert said + a == said + [a[0]];
      }
    }
  }

  lemma {:induction false} AckedMeans(s: ReceiverState, inputs: seq<Input>, k: nat)
    requires s.Valid() && k <= |inputs|
    ensures RunState(s, inputs[..k]).ackedThrough == LastAck(s.ackedThrough, Said(s, inputs, k))
    decreases k
  {
    if k == 0 {
    } else {
      AckedMeans(s, inputs, k - 1);
      AnswersAdd(s, inputs, k - 1);
      AckStep(RunState(s, inputs[..k - 1]), inputs[k - 1], s.ackedThrough, Said(s, inputs, k - 1));
      hide Next, Actions, LastAck;
    }
  }

  // ---- the answers ----------------------------------------------------------------------------------------------

  /** The first chunk not delivered yet. */
  function Missing(s: ReceiverState, said: seq<ReceiverAction>): nat {
    s.expected + |Deliveries(said)|
  }

  /** Time since `then`, none if the clock went back. */
  predicate AtLeast(now: nat, since: nat, wait: nat) {
    wait == 0 || now - since >= wait
  }

  /** The answer the protocol asks for, when `missing` is the first chunk not delivered, `acked` the last acknowledged
      and `t` holds the settings and the clocks. Once complete the engine is silent. A chunk already delivered is
      ignored, the missing one is delivered and acknowledged at each multiple of the batch, one beyond it makes the
      engine ask for the missing one; so does an end marker that comes too early. On a tick, what was delivered since
      the last acknowledgement is acknowledged after the interval, and the missing chunk is asked for when the peer was
      heard since the last data and nothing came for the stall timeout. */
  predicate Asked(complete: bool, missing: nat, acked: int, t: ReceiverState, i: Input, answer: seq<ReceiverAction>)
    requires t.Valid()
  {
    if complete then answer == []
    else
      match i
      case ChunkIn(index, _) =>
        if index < missing then answer == [Ignore]
        else if index > missing then answer == [Request(missing)]
        else if (missing + 1) % t.batch == 0 then answer == [Deliver(missing), ReceiverAction.Ack(missing)]
        else answer == [Deliver(missing)]
      case EndIn(total) => answer == if total == missing then [Complete] else [Request(missing)]
      case TickIn(now) =>
        var ack := acked + 1 < missing && AtLeast(now, Reading(t, AckClock), t.ackInterval);
        var ask := && 0 < Reading(t, ControlClock) && Reading(t, DataClock) <= Reading(t, ControlClock)
                   && AtLeast(now, Reading(t, DataClock), t.stallTimeout);
        answer == (if ack && missing > 0 then [ReceiverAction.Ack(missing - 1)] else [])
                  + (if ask then [Request(missing)] else [])
      case ControlIn(_) => answer == []
  }

  lemma StateAnswers(t: ReceiverState, i: Input)
    requires t.Valid()
    ensures Asked(t.done, t.expected, t.ackedThrough, t, i, Actions(t, i))
  {
  }

  lemma StandsThere(s: ReceiverState, inputs: seq<Input>)
    requires s.Valid() && !s.done
    ensures var t, said := RunState(s, inputs), RunActions(s, inputs);
            t.expected == Missing(s, said) && (t.done <==> Complete in said)
  {
    RunIsHonest(s, inputs);
    hide Honest, Next, Actions;
    var said := RunActions(s, inputs);
    if Completes(said) {
      var k :| 0 <= k < |said| && said[k].Complete?;
      assert said[k] == Complete;
    }
  }

  lemma {:induction false} SettingsStay(s: ReceiverState, inputs: seq<Input>)
    requires s.Valid()
    ensures var t := RunState(s, inputs);
            t.batch == s.batch && t.ackInterval == s.ackInterval && t.stallTimeout == s.stallTimeout
    decreases |inputs|
  {
    if inputs == [] {
    } else {
      SettingsStay(Next(s, inputs[0]), inputs[1..]);
    }
  }

  /** Exact, at every position of every input sequence, from any sender and in any order: the engine's answer is the one
      asked for, and nothing else. What is missing, acknowledged and complete is told by what it said before; the
      settings never change. */
  lemma EngineAnswers(s: ReceiverState, inputs: seq<Input>, k: nat)
    requires s.Valid() && !s.done && k < |inputs|
    ensures var said, t := Said(s, inputs, k), RunState(s, inputs[..k]);
            && t.batch == s.batch && t.ackInterval == s.ackInterval && t.stallTimeout == s.stallTimeout
            && Asked(Complete in said, Missing(s, said), LastAck(s.ackedThrough, said), t, inputs[k],
                     AnswerAt(s, inputs, k))
  {
    hide *;
    StandsThere(s, inputs[..k]);
    SettingsStay(s, inputs[..k]);
    AckedMeans(s, inputs, k);
    StateAnswers(RunState(s, inputs[..k]), inputs[k]);
    AnswerIs(s, inputs, k);
  }

  lemma AnswerIs(s: ReceiverState, inputs: seq<Input>, k: nat)
    requires s.Valid() && k < |inputs|
    ensures AnswerAt(s, inputs, k) == Actions(RunState(s, inputs[..k]), inputs[k])
    ensures Said(s, inputs, k) == RunActions(s, inputs[..k])
  {
  }
}
