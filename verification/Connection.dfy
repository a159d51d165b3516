/** The connection machine: one peer's signalling lifecycle, retry budget and timers. */
module Connection {
  import opened Wrappers

  datatype Event =
    | Start
    | SocketUp
    | SocketDown
    | SocketError
    | Joined(lastChunkOffset: nat, generation: nat)
    | BothReady(generation: nat)
    | PeerDisconnected
    | DcOpen
    | DcClosed
    | IceFailed
    | Error(code: string)
    | ManualRetry
    | TransferProgress
    | TransferComplete
    | RetryTimer
    | ReconnectDeadline

  datatype Action =
    | Dial
    | Join
    | BuildPc(resumeFrom: nat)
    | ArmRetryTimer(delay: nat)
    | ArmReconnectDeadline(delay: nat)
    | StoppedNotice
    | ExpiredNotice
    | CompletedNotice

  datatype Phase =
    | Idle
    | Connecting
    | Waiting
    | Negotiating
    | Transferring
    | Reconnecting
    | Stopped
    | Completed
    | Expired

  datatype Policy = Policy(maxRetries: nat, backoff: seq<nat>, iceTimeout: nat)

  datatype Machine = Machine(
    policy: Policy,
    phase: Phase,
    socketUp: bool,
    pendingJoin: bool,
    attempt: nat,
    retryScheduled: bool,
    timerArmed: bool,
    deadlineArmed: bool,
    peerEverPresent: bool,
    resumeFrom: nat,
    generation: nat)
  {
    /** An empty backoff list makes the program's index underflow. */
    predicate Valid() {
      policy.backoff != []
    }

    predicate Terminal() {
      phase == Completed || phase == Expired
    }
  }

  datatype Effect = Effect(m: Machine, out: seq<Action>)

  function New(policy: Policy): Machine {
    Machine(policy, Idle, false, false, 0, false, false, false, false, 0, 0)
  }

  predicate Fatal(code: string) {
    code in {"session_unavailable", "session_deleted", "evicted", "invalid_payload"}
  }

  // ---- one event --------------------------------------------------------------------------------------

  /** The delay of the `attempt`-th retry: its entry in the list, or the last one. */
  function Delay(m: Machine): nat
    requires m.Valid()
  {
    var idx := if m.attempt == 0 then 0 else m.attempt - 1;
    m.policy.backoff[if idx < |m.policy.backoff| then idx else |m.policy.backoff| - 1]
  }

  function Arm(m: Machine): (e: Effect)
    requires m.Valid()
    ensures e.m == m.(timerArmed := true) && |e.out| == (if m.timerArmed then 0 else 1)
  {
    if m.timerArmed then Effect(m, []) else Effect(m.(timerArmed := true), [ArmRetryTimer(Delay(m))])
  }

  function Retry(m: Machine): (e: Effect)
    requires m.Valid()
    ensures e.m.policy == m.policy && e.m.resumeFrom == m.resumeFrom
  {
    if m.Terminal() then Effect(m, [])
    else if m.retryScheduled then Arm(m)
    else if m.attempt + 1 > m.policy.maxRetries then
      Effect(m.(attempt := m.attempt + 1, retryScheduled := false, timerArmed := false, deadlineArmed := false,
                phase := Stopped), [StoppedNotice])
    else
      Arm(m.(attempt := m.attempt + 1, retryScheduled := true, phase := Reconnecting))
  }

  function Rejoin(m: Machine): Effect {
    if m.socketUp then Effect(m.(pendingJoin := false), [Join]) else Effect(m.(pendingJoin := true), [Dial])
  }

  function Handle(m: Machine, ev: Event): (e: Effect)
    requires m.Valid()
    ensures e.m.Valid() && e.m.policy == m.policy
  {
    match ev
    case Start => Effect(m.(phase := Connecting, pendingJoin := true), [Dial])
    case SocketUp =>
      Effect(m.(socketUp := true, pendingJoin := false), if m.pendingJoin then [Join] else [])
    case SocketDown => Retry(m.(socketUp := false))
    case SocketError => Retry(m)
    case DcClosed => Retry(m)
    case IceFailed => Retry(m)
    case PeerDisconnected => Retry(m)
    case Joined(offset, generation) =>
      var j := m.(retryScheduled := false, timerArmed := false, generation := generation,
                  resumeFrom := if offset > m.resumeFrom then offset else m.resumeFrom);
      if m.attempt == 0 then Effect(j.(phase := Waiting), [])
      else if !m.peerEverPresent then Effect(j.(phase := Waiting, deadlineArmed := false, attempt := 0), [])
      else Effect(j, [])
    case BothReady(generation) =>
      var b := m.(generation := generation, peerEverPresent := true, deadlineArmed := false, phase := Negotiating);
      Effect(if m.phase == Stopped then b.(attempt := 0, retryScheduled := false) else b, [BuildPc(m.resumeFrom)])
    case DcOpen =>
      Effect(m.(phase := Transferring, peerEverPresent := true, retryScheduled := false, timerArmed := false,
                deadlineArmed := false), [])
    case TransferProgress => Effect(m.(attempt := 0, retryScheduled := false), [])
    case Error(code) => if Fatal(code) then Effect(m.(phase := Expired), [ExpiredNotice]) else Retry(m)
    case ManualRetry =>
      if m.Terminal() then Effect(m, [])
      else
        var r := Rejoin(m.(attempt := 0, retryScheduled := false, timerArmed := false, phase := Reconnecting));
        Effect(r.m.(deadlineArmed := true), r.out + [ArmReconnectDeadline(m.policy.iceTimeout)])
    case TransferComplete => Effect(m.(phase := Completed), [CompletedNotice])
    case RetryTimer =>
      if !m.timerArmed then Effect(m, [])
      else if m.Terminal() then Effect(m.(timerArmed := false), [])
      else
        var r := Rejoin(m.(timerArmed := false));
        Effect(r.m.(deadlineArmed := true),
               r.out + (if m.deadlineArmed then [] else [ArmReconnectDeadline(m.policy.iceTimeout)]))
    case ReconnectDeadline =>
      if !m.deadlineArmed then Effect(m, [])
      else if m.Terminal() then Effect(m.(deadlineArmed := false), [])
      else Retry(m.(deadlineArmed := false, retryScheduled := false))
  }

  /** The events that end in `Retry`, and the state they pass to it. */
  function RetryInput(m: Machine, ev: Event): Option<Machine> {
    match ev
    case SocketDown => Some(m.(socketUp := false))
    case SocketError => Some(m)
    case DcClosed => Some(m)
    case IceFailed => Some(m)
    case PeerDisconnected => Some(m)
    case Error(code) => if Fatal(code) then None else Some(m)
    case ReconnectDeadline =>
      if m.deadlineArmed && !m.Terminal() then Some(m.(deadlineArmed := false, retryScheduled := false)) else None
    case _ => None
  }

  lemma FailuresRetry(m: Machine, ev: Event)
    requires m.Valid() && RetryInput(m, ev).Some?
    ensures RetryInput(m, ev).value.Valid() && Handle(m, ev) == Retry(RetryInput(m, ev).value)
  {
    hide Retry;
  }

  // ---- the machine ------------------------------------------------------------------------------------

  class ConnectionMachine {
    const policy: Policy
    var phase: Phase
    var socketUp: bool
    var pendingJoin: bool
    var attempt: nat
    var retryScheduled: bool
    var timerArmed: bool
    var deadlineArmed: bool
    var peerEverPresent: bool
    var resumeFrom: nat
    var generation: nat

    ghost function State(): Machine
      reads this
    {
      Machine(policy, phase, socketUp, pendingJoin, attempt, retryScheduled, timerArmed, deadlineArmed,
              peerEverPresent, resumeFrom, generation)
    }

    constructor (policy: Policy)
      ensures State() == New(policy)
    {
      this.policy := policy;
      phase := Idle;
      socketUp, pendingJoin := false, false;
      attempt, resumeFrom, generation := 0, 0, 0;
      retryScheduled, timerArmed, deadlineArmed, peerEverPresent := false, false, false, false;
    }

    method HandleEvent(ev: Event) returns (out: seq<Action>)
      requires State().Valid()
      modifies this
      ensures Effect(State(), out) == Handle(old(State()), ev)
    {
      hide Retry, Arm, Delay, Fatal;
      match ev
      case Start => {
        phase := Connecting;
        pendingJoin := true;
        out := [Dial];
      }
      case SocketUp => {
        socketUp := true;
        if pendingJoin {
          pendingJoin := false;
          out := [Join];
        } else {
          out := [];
        }
      }
      case SocketDown => {
        socketUp := false;
        out := ScheduleRetry();
      }
      case SocketError => out := ScheduleRetry();
      case DcClosed => out := ScheduleRetry();
      case IceFailed => out := ScheduleRetry();
      case PeerDisconnected => out := ScheduleRetry();
      case Joined(offset, gen) => {
        OnJoined(offset, gen);
        out := [];
      }
      case BothReady(gen) => {
        OnBothReady(gen);
        out := [BuildPc(resumeFrom)];
      }
      case DcOpen => {
        phase := Transferring;
        peerEverPresent := true;
        retryScheduled := false;
        timerArmed := false;
        deadlineArmed := false;
        out := [];
      }
      case TransferProgress => {
        attempt := 0;
        retryScheduled := false;
        out := [];
      }
      case Error(code) => {
        if Fatal(code) {
          phase := Expired;
          out := [ExpiredNotice];
        } else {
          out := ScheduleRetry();
        }
      }
      case ManualRetry => out := RetryManually();
      case TransferComplete => {
        phase := Completed;
        out := [CompletedNotice];
      }
      case RetryTimer => out := OnRetryTimer();
      case ReconnectDeadline => out := OnReconnectDeadline();
    }

    method OnJoined(offset: nat, gen: nat)
      requires State().Valid()
      modifies this
      ensures Effect(State(), []) == Handle(old(State()), Joined(offset, gen))
    {
      retryScheduled := false;
      timerArmed := false;
      generation := gen;
      if offset > resumeFrom {
        resumeFrom := offset;
      }
      if attempt == 0 {
        phase := Waiting;
      } else if !peerEverPresent {
        phase := Waiting;
        deadlineArmed := false;
        attempt := 0;
      }
    }

    method OnBothReady(gen: nat)
      requires State().Valid()
      modifies this
      ensures Effect(State(), [BuildPc(resumeFrom)]) == Handle(old(State()), BothReady(gen))
    {
      generation := gen;
      peerEverPresent := true;
      deadlineArmed := false;
      if phase == Stopped {
        attempt := 0;
        retryScheduled := false;
      }
      phase := Negotiating;
    }

    method OnReconnectDeadline() returns (out: seq<Action>)
      requires State().Valid()
      modifies this
      ensures Effect(State(), out) == Handle(old(State()), ReconnectDeadline)
    {
      if !deadlineArmed {
        return [];
      }
      deadlineArmed := false;
      if phase == Completed || phase == Expired {
        return [];
      }
      retryScheduled := false;
      out := ScheduleRetry();
    }

    method ScheduleRetry() returns (out: seq<Action>)
      requires State().Valid()
      modifies this
      ensures Effect(State(), out) == Retry(old(State()))
    {
      if phase == Completed || phase == Expired {
        return [];
      }
      if retryScheduled {
        out := ArmRetry();
        return;
      }
      retryScheduled := true;
      attempt := attempt + 1;
      if attempt > policy.maxRetries {
        retryScheduled := false;
        timerArmed := false;
        deadlineArmed := false;
        phase := Stopped;
        return [StoppedNotice];
      }
      phase := Reconnecting;
      out := ArmRetry();
    }

    method ArmRetry() returns (out: seq<Action>)
      requires State().Valid()
      modifies this`timerArmed
      ensures Effect(State(), out) == Arm(old(State()))
    {
      if timerArmed {
        return [];
      }
      timerArmed := true;
      var idx := if attempt == 0 then 0 else attempt - 1;
      if idx > |policy.backoff| - 1 {
        idx := |policy.backoff| - 1;
      }
      out := [ArmRetryTimer(policy.backoff[idx])];
    }

    method OnRetryTimer() returns (out: seq<Action>)
      requires State().Valid()
      modifies this
      ensures Effect(State(), out) == Handle(old(State()), RetryTimer)
    {
      if !timerArmed {
        return [];
      }
      timerArmed := false;
      if phase == Completed || phase == Expired {
        return [];
      }
      out := [];
      pendingJoin := true;
      if !socketUp {
        out := out + [Dial];
      } else {
        pendingJoin := false;
        out := out + [Join];
      }
      if !deadlineArmed {
        deadlineArmed := true;
        out := out + [ArmReconnectDeadline(policy.iceTimeout)];
      }
    }

    method RetryManually() returns (out: seq<Action>)
      requires State().Valid()
      modifies this
      ensures Effect(State(), out) == Handle(old(State()), ManualRetry)
    {
      if phase == Completed || phase == Expired {
        return [];
      }
      attempt := 0;
      retryScheduled := false;
      timerArmed := false;
      phase := Reconnecting;
      out := [];
      pendingJoin := true;
      if socketUp {
        pendingJoin := false;
        out := out + [Join];
      } else {
        out := out + [Dial];
      }
      deadlineArmed := true;
      out := out + [ArmReconnectDeadline(policy.iceTimeout)];
    }

    /** One failed round of the local drive loops: the failure is fed in; unless that exhausts the budget
        the retry timer fires and the peer re-joins. */
    method FailedRound(offset: nat) returns (bailed: bool)
      requires State().Valid()
      modifies this
      ensures Round(State(), bailed) == AfterRound(old(State()), offset)
    {
      var acts := HandleEvent(DcClosed);
      if phase == Stopped {
        return true;
      }
      acts := HandleEvent(RetryTimer);
      acts := HandleEvent(Joined(offset, 0));
      bailed := false;
    }

    /** The loop's report of an acknowledged or received chunk. */
    method Report()
      requires State().Valid()
      modifies this
      ensures State().Valid()
      ensures State() == if old(attempt) > 0 then Handle(old(State()), TransferProgress).m else old(State())
    {
      if attempt > 0 {
        var acts := HandleEvent(TransferProgress);
      }
    }

    /** A whole round: the channel may come up, chunks may move, and then it fails. */
    method RunRound(f: Failure) returns (bailed: bool)
      requires State().Valid()
      modifies this
      ensures Round(State(), bailed) == AfterRound(Failing(old(State()), f), f.offset)
    {
      hide Handle, AfterRound;
      if f.reopened {
        var acts := HandleEvent(DcOpen);
        if f.moved {
          Report();
        }
      }
      bailed := FailedRound(f.offset);
    }
  }

  // ---- every trace --------------------------------------------------------------------------------------

  function After(m: Machine, evs: seq<Event>): (t: Machine)
    requires m.Valid()
    ensures t.Valid() && t.policy == m.policy
  {
    if evs == [] then m else Handle(After(m, evs[..|evs| - 1]), evs[|evs| - 1]).m
  }

  function OutAt(m: Machine, evs: seq<Event>, k: nat): seq<Action>
    requires m.Valid() && k < |evs|
  {
    Handle(After(m, evs[..k]), evs[k]).out
  }

  lemma OutAtOfPrefix(m: Machine, evs: seq<Event>, n: nat, k: nat)
    requires m.Valid() && k < n <= |evs|
    ensures OutAt(m, evs[..n], k) == OutAt(m, evs, k)
  {
    assert evs[..n][..k] == evs[..k];
  }

  /** The largest resume point any `Joined` has reported, or zero. */
  function LargestOffset(evs: seq<Event>): nat {
    if evs == [] then 0
    else
      var before, e := LargestOffset(evs[..|evs| - 1]), evs[|evs| - 1];
      if e.Joined? && e.lastChunkOffset > before then e.lastChunkOffset else before
  }

  lemma {:induction false} LargestOffsetIsLargest(evs: seq<Event>)
    ensures forall k :: 0 <= k < |evs| && evs[k].Joined? ==> evs[k].lastChunkOffset <= LargestOffset(evs)
    ensures LargestOffset(evs) == 0
            || exists k :: 0 <= k < |evs| && evs[k].Joined? && evs[k].lastChunkOffset == LargestOffset(evs)
  {
    if evs == [] {
    } else {
      var n := |evs| - 1;
      LargestOffsetIsLargest(evs[..n]);
      assert forall k :: 0 <= k < n ==> evs[..n][k] == evs[k];
    }
  }

  lemma HandleTracksOffset(m: Machine, ev: Event)
    requires m.Valid()
    ensures Handle(m, ev).m.resumeFrom
            == if ev.Joined? && ev.lastChunkOffset > m.resumeFrom then ev.lastChunkOffset else m.resumeFrom
    ensures forall a :: a in Handle(m, ev).out && a.BuildPc? ==> a.resumeFrom == m.resumeFrom
  {
    if RetryInput(m, ev).Some? {
      FailuresRetry(m, ev);
      hide Handle;
    } else {
      hide Retry;
    }
  }

  lemma {:induction false} ResumePointIsLargest(policy: Policy, evs: seq<Event>)
    requires policy.backoff != []
    ensures After(New(policy), evs).resumeFrom == LargestOffset(evs)
  {
    if evs == [] {
    } else {
      var n := |evs| - 1;
      ResumePointIsLargest(policy, evs[..n]);
      HandleTracksOffset(After(New(policy), evs[..n]), evs[n]);
      hide Handle;
    }
  }

  /** In every trace from a new machine, whatever is built resumes at the largest offset reported so far. */
  lemma BuildPcCarriesLargest(policy: Policy, evs: seq<Event>)
    requires policy.backoff != []
    ensures forall k, a :: 0 <= k < |evs| && a in OutAt(New(policy), evs, k) && a.BuildPc?
              ==> a.resumeFrom == LargestOffset(evs[..k])
  {
    hide Handle, After, LargestOffset;
    forall k, a | 0 <= k < |evs| && a in OutAt(New(policy), evs, k) && a.BuildPc?
      ensures a.resumeFrom == LargestOffset(evs[..k])
    {
      ResumePointIsLargest(policy, evs[..k]);
      HandleTracksOffset(After(New(policy), evs[..k]), evs[k]);
    }
  }

  // ---- budget ---------------------------------------------------------------------------------------------

  predicate BudgetInv(m: Machine) {
    && m.Valid()
    && (m.phase == Reconnecting ==> m.attempt <= m.policy.maxRetries)
    && (m.retryScheduled ==> 1 <= m.attempt <= m.policy.maxRetries)
  }

  /** The `n`-th delay of the list, or the last one. */
  function NthDelay(policy: Policy, n: nat): nat
    requires policy.backoff != [] && n >= 1
  {
    policy.backoff[if n <= |policy.backoff| then n - 1 else |policy.backoff| - 1]
  }

  /** The delays armed are those of the attempt the machine is then in. */
  ghost predicate DelaysFit(e: Effect) {
    e.m.Valid() && forall a :: a in e.out && a.ArmRetryTimer? ==>
      1 <= e.m.attempt <= e.m.policy.maxRetries && a.delay == NthDelay(e.m.policy, e.m.attempt)
  }

  lemma RetryKeepsBudget(m: Machine)
    requires BudgetInv(m) || (BudgetInv(m.(retryScheduled := false)) && !m.retryScheduled)
    ensures BudgetInv(Retry(m).m) && DelaysFit(Retry(m))
  {
  }

  lemma OthersKeepBudget(m: Machine, ev: Event)
    requires BudgetInv(m) && RetryInput(m, ev).None?
    ensures BudgetInv(Handle(m, ev).m) && forall a :: a in Handle(m, ev).out ==> !a.ArmRetryTimer?
  {
    hide Retry;
  }

  lemma HandleKeepsBudget(m: Machine, ev: Event)
    requires BudgetInv(m)
    ensures BudgetInv(Handle(m, ev).m) && DelaysFit(Handle(m, ev))
  {
    hide Handle, Retry, NthDelay;
    if RetryInput(m, ev).Some? {
      FailuresRetry(m, ev);
      RetryKeepsBudget(RetryInput(m, ev).value);
    } else {
      OthersKeepBudget(m, ev);
    }
  }

  /** In every trace: a reconnecting machine is within its budget, and a retry timer armed for attempt `n`
      waits the `n`-th delay of the list, or the last one. */
  lemma {:induction false} BudgetHolds(policy: Policy, evs: seq<Event>)
    requires policy.backoff != []
    ensures BudgetInv(After(New(policy), evs))
    ensures evs != [] ==> DelaysFit(Effect(After(New(policy), evs), OutAt(New(policy), evs, |evs| - 1)))
  {
    if evs == [] {
    } else {
      var n := |evs| - 1;
      BudgetHolds(policy, evs[..n]);
      HandleKeepsBudget(After(New(policy), evs[..n]), evs[n]);
    }
  }

  // ---- liveness of the timers --------------------------------------------------------------------------------

  /** A reconnecting machine has something armed that will move it. */
  predicate WillMove(m: Machine) {
    m.phase == Reconnecting ==> m.timerArmed || m.deadlineArmed
  }

  /** A re-join that overtakes the retry timer of an established session disarms it, and nothing else is
      armed yet. */
  predicate Overtakes(m: Machine, ev: Event) {
    ev.Joined? && m.phase == Reconnecting && m.attempt > 0 && m.peerEverPresent && !m.deadlineArmed
  }

  /** Exact: of all events only that one leaves a reconnecting machine with nothing armed. */
  lemma StaysMovingIff(m: Machine, ev: Event)
    requires BudgetInv(m) && WillMove(m)
    ensures WillMove(Handle(m, ev).m) <==> !Overtakes(m, ev)
  {
    if RetryInput(m, ev).Some? {
      FailuresRetry(m, ev);
      hide Handle;
    } else {
      hide Retry;
    }
  }

  /** In every trace without such a re-join, a reconnecting machine always has a timer or deadline armed. */
  lemma {:induction false} AlwaysMoves(policy: Policy, evs: seq<Event>)
    requires policy.backoff != []
    requires forall k :: 0 <= k < |evs| ==> !Overtakes(After(New(policy), evs[..k]), evs[k])
    ensures WillMove(After(New(policy), evs))
  {
    if evs == [] {
    } else {
      var n := |evs| - 1;
      forall k | 0 <= k < n
        ensures !Overtakes(After(New(policy), evs[..n][..k]), evs[..n][k])
      {
        assert evs[..n][..k] == evs[..k];
      }
      AlwaysMoves(policy, evs[..n]);
      BudgetHolds(policy, evs[..n]);
      StaysMovingIff(After(New(policy), evs[..n]), evs[n]);
    }
  }

  function EstablishedThenClosed(): seq<Event> {
    [Start, SocketUp, Joined(0, 1), BothReady(1), DcOpen, DcClosed]
  }

  /** The machine once a session is established. */
  function Established(policy: Policy): Machine {
    Machine(policy, Transferring, true, false, 0, false, false, false, true, 0, 1)
  }

  lemma AfterOneMore(m: Machine, evs: seq<Event>, ev: Event)
    requires m.Valid()
    ensures After(m, evs + [ev]) == Handle(After(m, evs), ev).m
  {
    assert (evs + [ev])[..|evs|] == evs;
  }

  lemma EstablishedAfter(policy: Policy)
    requires policy.backoff != []
    ensures After(New(policy), [Start, SocketUp, Joined(0, 1), BothReady(1), DcOpen]) == Established(policy)
  {
    var m := New(policy);
    var m1 := Handle(m, Start).m;
    var m2 := Handle(m1, SocketUp).m;
    var m3 := Handle(m2, Joined(0, 1)).m;
    var m4 := Handle(m3, BothReady(1)).m;
    assert Handle(m4, DcOpen).m == Established(policy) by { hide After, Retry; }
    hide *;
    EmptyTrace(m);
    OneMoreIs(m, [], Start, [Start], m);
    OneMoreIs(m, [Start], SocketUp, [Start, SocketUp], m1);
    OneMoreIs(m, [Start, SocketUp], Joined(0, 1), [Start, SocketUp, Joined(0, 1)], m2);
    OneMoreIs(m, [Start, SocketUp, Joined(0, 1)], BothReady(1), [Start, SocketUp, Joined(0, 1), BothReady(1)], m3);
    OneMoreIs(m, [Start, SocketUp, Joined(0, 1), BothReady(1)], DcOpen,
              [Start, SocketUp, Joined(0, 1), BothReady(1), DcOpen], m4);
  }

  lemma OneMoreIs(m: Machine, evs: seq<Event>, ev: Event, longer: seq<Event>, before: Machine)
    requires m.Valid() && After(m, evs) == before && longer == evs + [ev]
    ensures After(m, longer) == Handle(before, ev).m
  {
    AfterOneMore(m, evs, ev);
  }

  lemma EmptyTrace(m: Machine)
    requires m.Valid()
    ensures After(m, []) == m
  {
  }

  /** The failing family is reachable, under every budget that allows a retry: a session is established, the
      channel closes, and the peer re-joins before the retry timer fires. */
  lemma OvertakenRetryIsStuck(policy: Policy)
    requires policy.backoff != [] && policy.maxRetries >= 1
    ensures var m := After(New(policy), EstablishedThenClosed());
            && Overtakes(m, Joined(0, 2))
            && var t := Handle(m, Joined(0, 2)).m;
            && t.phase == Reconnecting && !WillMove(t)
            && Handle(t, RetryTimer) == Effect(t, []) && Handle(t, ReconnectDeadline) == Effect(t, [])
  {
    EstablishedAfter(policy);
    AfterOneMore(New(policy), [Start, SocketUp, Joined(0, 1), BothReady(1), DcOpen], DcClosed);
    hide After;
    assert [Start, SocketUp, Joined(0, 1), BothReady(1), DcOpen] + [DcClosed] == EstablishedThenClosed();
    FailuresRetry(Established(policy), DcClosed);
  }

  // ---- after the end -------------------------------------------------------------------------------------------

  /** Exact: a completed or expired machine reacts to nothing but a new start, a peer that becomes ready, a
      channel that opens, a fatal error, a completion, a socket it still had to join on, and a join while no
      retry of an established session is counted. In particular it ignores every failure, timer and manual
      retry. */
  lemma TerminalIgnoresIff(m: Machine, ev: Event)
    requires m.Valid() && m.Terminal()
    ensures Handle(m, ev).m.phase == m.phase && Handle(m, ev).out == []
            <==> !(|| ev.Start? || ev.BothReady? || ev.DcOpen? || ev.TransferComplete?
                   || (ev.Error? && Fatal(ev.code))
                   || (ev.SocketUp? && m.pendingJoin)
                   || (ev.Joined? && (m.attempt == 0 || !m.peerEverPresent)))
  {
    if RetryInput(m, ev).Some? {
      FailuresRetry(m, ev);
      hide Handle;
    } else {
      hide Retry;
    }
  }

  // ---- the climb -------------------------------------------------------------------------------------------------

  /** Nothing in the trace resets the budget of an established session. */
  predicate NoRelief(evs: seq<Event>) {
    forall k :: 0 <= k < |evs| ==> !evs[k].TransferProgress? && !evs[k].ManualRetry?
  }

  predicate Climbing(m: Machine) {
    m.Valid() && m.peerEverPresent && m.phase != Stopped && m.attempt <= m.policy.maxRetries
  }

  predicate Stops(m: Machine, ev: Event)
    requires m.Valid()
  {
    StoppedNotice in Handle(m, ev).out
  }

  /** A failure climbs by at most one, or stops a machine whose budget is spent. */
  lemma RetryClimbsOnce(m: Machine)
    requires Climbing(m)
    ensures var e := Retry(m);
            if StoppedNotice in e.out
            then e.out == [StoppedNotice] && m.attempt == m.policy.maxRetries
                 && e.m.attempt == m.attempt + 1 && e.m.phase == Stopped
            else Climbing(e.m) && m.attempt <= e.m.attempt <= m.attempt + 1
  {
  }

  lemma InputClimbs(m: Machine, ev: Event)
    requires Climbing(m) && RetryInput(m, ev).Some?
    ensures Climbing(RetryInput(m, ev).value) && RetryInput(m, ev).value.attempt == m.attempt
    ensures RetryInput(m, ev).value.policy == m.policy
  {
  }

  lemma OthersClimb(m: Machine, ev: Event)
    requires Climbing(m) && RetryInput(m, ev).None? && !ev.TransferProgress? && !ev.ManualRetry?
    ensures StoppedNotice !in Handle(m, ev).out && Climbing(Handle(m, ev).m) && Handle(m, ev).m.attempt == m.attempt
  {
    hide Retry;
  }

  lemma ClimbStep(m: Machine, ev: Event)
    requires Climbing(m) && !ev.TransferProgress? && !ev.ManualRetry?
    ensures var t := Handle(m, ev).m;
            if Stops(m, ev)
            then Handle(m, ev).out == [StoppedNotice] && m.attempt == m.policy.maxRetries
                 && t.attempt == m.attempt + 1 && t.phase == Stopped
            else Climbing(t) && m.attempt <= t.attempt <= m.attempt + 1
  {
    if RetryInput(m, ev).Some? {
      FailuresRetry(m, ev);
      InputClimbs(m, ev);
      RetryClimbsOnce(RetryInput(m, ev).value);
    } else {
      OthersClimb(m, ev);
    }
    hide Handle, Retry, RetryInput, Climbing;
  }

  /** How often the attempt count went up. */
  function Increments(m: Machine, evs: seq<Event>): nat
    requires m.Valid()
  {
    if evs == [] then 0
    else
      var n := |evs| - 1;
      Increments(m, evs[..n]) + (if After(m, evs).attempt > After(m, evs[..n]).attempt then 1 else 0)
  }

  predicate StopsAt(m: Machine, evs: seq<Event>, k: nat)
    requires m.Valid() && k < |evs|
  {
    StoppedNotice in OutAt(m, evs, k)
  }

  /** Once a data channel has opened, in every trace without progress or a manual retry, and as long as it has
      not stopped, the attempt count is where it started plus the increments so far, so it never falls; and the
      event that stops the machine is exactly the one that brings it to `maxRetries + 1`. */
  lemma {:induction false} RetryClimbs(m: Machine, evs: seq<Event>)
    requires Climbing(m) && NoRelief(evs)
    requires forall k :: 0 <= k < |evs| - 1 ==> !StopsAt(m, evs, k)
    ensures After(m, evs).attempt == m.attempt + Increments(m, evs)
    ensures evs != [] && StopsAt(m, evs, |evs| - 1)
            <==> evs != [] && m.attempt + Increments(m, evs) == m.policy.maxRetries + 1
    ensures (evs == [] || !StopsAt(m, evs, |evs| - 1)) ==> Climbing(After(m, evs))
    ensures evs != [] && StopsAt(m, evs, |evs| - 1) ==> After(m, evs).phase == Stopped
  {
    if evs == [] {
    } else {
      var n := |evs| - 1;
      forall k | 0 <= k < n
        ensures !StopsAt(m, evs[..n], k)
      {
        OutAtOfPrefix(m, evs, n, k);
        assert !StopsAt(m, evs, k);
      }
      RetryClimbs(m, evs[..n]);
      ClimbStep(After(m, evs[..n]), evs[n]);
    }
  }

  // ---- the drive loops ---------------------------------------------------------------------------------------------

  datatype Round = Round(m: Machine, bailed: bool)

  function AfterRound(m: Machine, offset: nat): (r: Round)
    requires m.Valid()
    ensures r.m.Valid() && r.m.policy == m.policy
  {
    var closed := Handle(m, DcClosed).m;
    if closed.phase == Stopped then Round(closed, true)
    else Round(Handle(Handle(closed, RetryTimer).m, Joined(offset, 0)).m, false)
  }

  /** A round as the loop runs it: whether a data channel came up before it failed, and whether a chunk was acknowledged
      or received on it. */
  datatype Failure = Failure(reopened: bool, moved: bool, offset: nat)

  predicate Progress(f: Failure) {
    f.reopened && f.moved
  }

  /** The loop reports progress only while attempts are counted. */
  function Failing(m: Machine, f: Failure): (t: Machine)
    requires m.Valid()
    ensures t.Valid() && t.policy == m.policy
  {
    if !f.reopened then m
    else
      var open := Handle(m, DcOpen).m;
      if f.moved && open.attempt > 0 then Handle(open, TransferProgress).m else open
  }

  /** The number of consecutive failed rounds after which the loop gives up, or one more than there are. */
  function GivesUpAfter(m: Machine, failures: seq<Failure>): nat
    requires m.Valid()
    decreases |failures|
  {
    if failures == [] then 1
    else
      var r := AfterRound(Failing(m, failures[0]), failures[0].offset);
      if r.bailed then 1 else 1 + GivesUpAfter(r.m, failures[1..])
  }

  /** The loop is about to wait for its peer: nothing is scheduled and the budget is not exhausted. */
  predicate BetweenRounds(m: Machine) {
    m.Valid() && !m.Terminal() && m.phase != Stopped && !m.retryScheduled && m.attempt <= m.policy.maxRetries
  }

  lemma OpenedRound(m: Machine, f: Failure)
    requires BetweenRounds(m)
    ensures var open := Failing(m, f);
            && BetweenRounds(open) && open.peerEverPresent == (m.peerEverPresent || f.reopened)
            && open.policy == m.policy && open.attempt == if Progress(f) then 0 else m.attempt
  {
    hide Retry;
  }

  lemma RoundClimbs(m: Machine, f: Failure)
    requires BetweenRounds(m) && (m.peerEverPresent || f.reopened)
    ensures var r, counted := AfterRound(Failing(m, f), f.offset), if Progress(f) then 0 else m.attempt;
            && (r.bailed <==> counted == m.policy.maxRetries)
            && (!r.bailed ==> BetweenRounds(r.m) && r.m.peerEverPresent && r.m.attempt == counted + 1)
  {
    var open := Failing(m, f);
    OpenedRound(m, f);
    CloseClimbs(open);
    hide Failing, Handle;
    if open.attempt < m.policy.maxRetries {
      RejoinSettles(Handle(open, DcClosed).m, f.offset);
    }
  }

  lemma CloseClimbs(m: Machine)
    requires BetweenRounds(m)
    ensures var t := Handle(m, DcClosed).m;
            && t.Valid() && t.policy == m.policy && t.peerEverPresent == m.peerEverPresent && t.attempt == m.attempt + 1
            && (if m.attempt == m.policy.maxRetries then t.phase == Stopped
                else t.phase == Reconnecting && t.timerArmed)
  {
    FailuresRetry(m, DcClosed);
    hide Handle;
  }

  lemma RejoinSettles(m: Machine, offset: nat)
    requires m.Valid() && m.phase == Reconnecting && m.timerArmed && m.peerEverPresent
             && 1 <= m.attempt <= m.policy.maxRetries
    ensures var t := Handle(Handle(m, RetryTimer).m, Joined(offset, 0)).m;
            BetweenRounds(t) && t.peerEverPresent && t.attempt == m.attempt && t.policy == m.policy
  {
    hide Retry;
  }

  /** The round at `n` spends the budget, with `counted` failures before the first round: with it, `maxRetries + 1`
      failures follow the last progress. */
  predicate Spends(counted: nat, maxRetries: nat, failures: seq<Failure>, n: nat) {
    && n < |failures| && n + counted >= maxRetries
    && forall j :: 0 <= j <= n && n - maxRetries < j ==> !Progress(failures[j])
  }

  lemma SpendsLater(counted: nat, maxRetries: nat, failures: seq<Failure>, n: nat)
    requires 1 <= n < |failures| && maxRetries >= 1
    ensures Spends(counted, maxRetries, failures, n)
            <==> Spends(if Progress(failures[0]) then 1 else counted + 1, maxRetries, failures[1..], n - 1)
  {
    var rest := failures[1..];
    assert forall j :: 1 <= j <= n ==> failures[j] == rest[j - 1];
    if Spends(if Progress(failures[0]) then 1 else counted + 1, maxRetries, rest, n - 1) {
      forall j | 0 <= j <= n && n - maxRetries < j
        ensures !Progress(failures[j])
      {
        if j >= 1 {
          assert !Progress(rest[j - 1]);
        }
      }
    }
  }

  /** `g` is one more than the first round that does, or one more than there are. */
  ghost predicate FirstToSpend(counted: nat, maxRetries: nat, failures: seq<Failure>, g: nat) {
    && 1 <= g <= |failures| + 1 && (g <= |failures| ==> Spends(counted, maxRetries, failures, g - 1))
    && forall n: nat :: n + 1 < g ==> !Spends(counted, maxRetries, failures, n)
  }

  lemma FirstToSpendLater(counted: nat, maxRetries: nat, failures: seq<Failure>, g: nat)
    requires failures != [] && maxRetries >= 1 && !Spends(counted, maxRetries, failures, 0)
    requires FirstToSpend(if Progress(failures[0]) then 1 else counted + 1, maxRetries, failures[1..], g)
    ensures FirstToSpend(counted, maxRetries, failures, g + 1)
  {
    var counts := if Progress(failures[0]) then 1 else counted + 1;
    forall n: nat | 1 <= n < |failures|
      ensures Spends(counted, maxRetries, failures, n) <==> Spends(counts, maxRetries, failures[1..], n - 1)
    {
      SpendsLater(counted, maxRetries, failures, n);
    }
    hide Spends;
    forall n: nat | n + 1 < g + 1
      ensures !Spends(counted, maxRetries, failures, n)
    {
      if n >= 1 {
        assert !Spends(counts, maxRetries, failures[1..], n - 1);
      }
    }
  }

  lemma NoRoundSpends(m: Machine, counted: nat, maxRetries: nat)
    requires m.Valid()
    ensures FirstToSpend(counted, maxRetries, [], GivesUpAfter(m, []))
  {
  }

  lemma {:induction false} GivesUpOnceOpened(m: Machine, failures: seq<Failure>)
    requires BetweenRounds(m) && m.peerEverPresent && m.policy.maxRetries >= 1
    ensures FirstToSpend(m.attempt, m.policy.maxRetries, failures, GivesUpAfter(m, failures))
    decreases |failures|
  {
    if failures == [] {
      NoRoundSpends(m, m.attempt, m.policy.maxRetries);
    } else {
      RoundClimbs(m, failures[0]);
      var r := AfterRound(Failing(m, failures[0]), failures[0].offset);
      hide *;
      if !r.bailed {
        GivesUpOnceOpened(r.m, failures[1..]);
      }
      GivesUpStep(m, failures);
    }
    hide *;
  }

  lemma GivesUpStep(m: Machine, failures: seq<Failure>)
    requires BetweenRounds(m) && m.peerEverPresent && m.policy.maxRetries >= 1 && failures != []
    requires var r := AfterRound(Failing(m, failures[0]), failures[0].offset);
             !r.bailed ==>
               FirstToSpend(r.m.attempt, m.policy.maxRetries, failures[1..], GivesUpAfter(r.m, failures[1..]))
    ensures FirstToSpend(m.attempt, m.policy.maxRetries, failures, GivesUpAfter(m, failures))
  {
    hide *;
    var f, max := failures[0], m.policy.maxRetries;
    WithinBudget(m);
    GivesUpUnrolls(m, failures);
    RoundClimbs(m, f);
    SpendsAtOnce(m.attempt, max, failures);
    var r := AfterRound(Failing(m, f), f.offset);
    if !r.bailed {
      FirstToSpendLater(m.attempt, max, failures, GivesUpAfter(r.m, failures[1..]));
    }
  }

  lemma WithinBudget(m: Machine)
    requires BetweenRounds(m)
    ensures m.Valid() && m.attempt <= m.policy.maxRetries
  {
  }

  lemma GivesUpUnrolls(m: Machine, failures: seq<Failure>)
    requires m.Valid() && failures != []
    ensures var r := AfterRound(Failing(m, failures[0]), failures[0].offset);
            GivesUpAfter(m, failures) == if r.bailed then 1 else 1 + GivesUpAfter(r.m, failures[1..])
  {
  }

  lemma SpendsAtOnce(counted: nat, maxRetries: nat, failures: seq<Failure>)
    requires failures != [] && maxRetries >= 1 && counted <= maxRetries
    ensures Spends(counted, maxRetries, failures, 0) <==> counted == maxRetries && !Progress(failures[0])
    ensures Spends(counted, maxRetries, failures, 0) ==> FirstToSpend(counted, maxRetries, failures, 1)
  {
  }

  lemma RoundBeforeFirstChannel(m: Machine, f: Failure)
    requires BetweenRounds(m) && !m.peerEverPresent && !f.reopened
    ensures var r := AfterRound(Failing(m, f), f.offset);
            && (r.bailed <==> m.attempt == m.policy.maxRetries)
            && (!r.bailed ==> BetweenRounds(r.m) && !r.m.peerEverPresent && r.m.attempt == 0)
  {
  }

  /** How many rounds fail before the first one in which a channel came up. */
  function RoundsBeforeChannel(present: bool, failures: seq<Failure>): (k: nat)
    ensures k <= |failures|
    ensures k > 0 ==> !present
    ensures forall j :: 0 <= j < k ==> !failures[j].reopened
    ensures k < |failures| ==> present || failures[k].reopened
  {
    if present || failures == [] || failures[0].reopened then 0 else 1 + RoundsBeforeChannel(false, failures[1..])
  }

  /** The round at `n` is the last of `maxRetries + 1` failures in which a channel had come up before, and none but the
      first of them saw progress. */
  predicate Exhausts(present: bool, maxRetries: nat, failures: seq<Failure>, n: nat) {
    && n < |failures| && RoundsBeforeChannel(present, failures) + maxRetries <= n
    && forall j :: 0 <= j <= n && n - maxRetries < j ==> !Progress(failures[j])
  }

  ghost predicate FirstToExhaust(present: bool, maxRetries: nat, failures: seq<Failure>, g: nat) {
    && 1 <= g <= |failures| + 1 && (g <= |failures| ==> Exhausts(present, maxRetries, failures, g - 1))
    && forall n: nat :: n + 1 < g ==> !Exhausts(present, maxRetries, failures, n)
  }

  lemma ExhaustsLater(maxRetries: nat, failures: seq<Failure>, n: nat)
    requires 1 <= n < |failures| && !failures[0].reopened
    ensures Exhausts(false, maxRetries, failures, n) <==> Exhausts(false, maxRetries, failures[1..], n - 1)
  {
    var rest := failures[1..];
    assert forall j :: 1 <= j <= n ==> failures[j] == rest[j - 1];
    if Exhausts(false, maxRetries, rest, n - 1) {
      forall j | 0 <= j <= n && n - maxRetries < j
        ensures !Progress(failures[j])
      {
        if j >= 1 {
          assert !Progress(rest[j - 1]);
        }
      }
    }
  }

  /** Before the first channel a round counts for nothing. */
  lemma FirstToExhaustLater(maxRetries: nat, failures: seq<Failure>, g: nat)
    requires failures != [] && !failures[0].reopened && maxRetries >= 1
    requires FirstToExhaust(false, maxRetries, failures[1..], g)
    ensures FirstToExhaust(false, maxRetries, failures, g + 1)
  {
    forall n: nat | 1 <= n < |failures|
      ensures Exhausts(false, maxRetries, failures, n) <==> Exhausts(false, maxRetries, failures[1..], n - 1)
    {
      ExhaustsLater(maxRetries, failures, n);
    }
    assert !Exhausts(false, maxRetries, failures, 0);
    hide Exhausts;
    forall n: nat | n + 1 < g + 1
      ensures !Exhausts(false, maxRetries, failures, n)
    {
      if n >= 1 {
        assert !Exhausts(false, maxRetries, failures[1..], n - 1);
      }
    }
  }

  /** With a channel from the start the two say the same. */
  lemma ExhaustsIsSpends(present: bool, maxRetries: nat, failures: seq<Failure>, g: nat)
    requires present || failures == [] || failures[0].reopened
    ensures FirstToExhaust(present, maxRetries, failures, g) <==> FirstToSpend(0, maxRetries, failures, g)
  {
    assert forall n: nat :: Exhausts(present, maxRetries, failures, n) == Spends(0, maxRetries, failures, n);
  }

  /** Exact, for any failures and any progress between them: the loop gives up in the first round that completes
      `maxRetries + 1` consecutive failed rounds since the last progress, counted from the first in which a channel came
      up, or from the start if one had before. Rounds before that never count, because each re-join resets the count; so
      a loop no channel ever came up in never gives up, and neither does one that moves often enough. With a budget of
      no retry at all it gives up at once. */
  lemma {:induction false} LoopGivesUpExactly(m: Machine, failures: seq<Failure>)
    requires BetweenRounds(m) && m.attempt == 0
    ensures m.policy.maxRetries >= 1 ==>
              FirstToExhaust(m.peerEverPresent, m.policy.maxRetries, failures, GivesUpAfter(m, failures))
    ensures m.policy.maxRetries == 0 && failures != [] ==> GivesUpAfter(m, failures) == 1
    decreases |failures|
  {
    hide AfterRound, Failing;
    var max := m.policy.maxRetries;
    if failures == [] {
    } else if max == 0 {
      NoRetryAtAll(m, failures[0]);
    } else if m.peerEverPresent || failures[0].reopened {
      GivesUpFromChannel(m, failures);
      ExhaustsIsSpends(m.peerEverPresent, max, failures, GivesUpAfter(m, failures));
    } else {
      hide FirstToExhaust;
      var r := AfterRound(Failing(m, failures[0]), failures[0].offset);
      RoundBeforeFirstChannel(m, failures[0]);
      LoopGivesUpExactly(r.m, failures[1..]);
      FirstToExhaustLater(max, failures, GivesUpAfter(r.m, failures[1..]));
    }
  }

  lemma NoRetryAtAll(m: Machine, f: Failure)
    requires BetweenRounds(m) && m.attempt == 0 && m.policy.maxRetries == 0
    ensures AfterRound(Failing(m, f), f.offset).bailed
  {
    if m.peerEverPresent || f.reopened {
      RoundClimbs(m, f);
    } else {
      RoundBeforeFirstChannel(m, f);
    }
    hide AfterRound, Failing;
  }

  lemma GivesUpFromChannel(m: Machine, failures: seq<Failure>)
    requires BetweenRounds(m) && m.attempt == 0 && m.policy.maxRetries >= 1
    requires failures != [] && (m.peerEverPresent || failures[0].reopened)
    ensures FirstToSpend(0, m.policy.maxRetries, failures, GivesUpAfter(m, failures))
  {
    hide AfterRound, Failing, FirstToSpend;
    var r, max := AfterRound(Failing(m, failures[0]), failures[0].offset), m.policy.maxRetries;
    RoundClimbs(m, failures[0]);
    SpendsAtOnce(0, max, failures);
    GivesUpOnceOpened(r.m, failures[1..]);
    FirstToSpendLater(0, max, failures, GivesUpAfter(r.m, failures[1..]));
  }
}
