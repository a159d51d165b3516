/** What the connection machine remembers and says, over every trace from a new machine, told from the events and from
    what was said before. */
module ConnectionTraces {
  import opened Connection
  import opened Wrappers

  // ---- the attempt count -------------------------------------------------------------------------------------

  /** A failure counts unless a retry is pending or everything is over; a deadline counts if it was armed. */
  predicate Counts(m: Machine, ev: Event) {
    && !m.Terminal()
    && match ev
       case ReconnectDeadline => m.deadlineArmed
       case Error(code) => !Fatal(code) && !m.retryScheduled
       case _ => (ev.SocketDown? || ev.SocketError? || ev.DcClosed? || ev.IceFailed? || ev.PeerDisconnected?)
                 && !m.retryScheduled
  }

  /** What starts the count afresh: progress, a manual retry, a join while there never was a peer, and a peer that is
      ready after the machine had given up. */
  predicate Relieves(m: Machine, ev: Event) {
    match ev
    case TransferProgress => true
    case ManualRetry => !m.Terminal()
    case Joined(_, _) => !m.peerEverPresent
    case BothReady(_) => m.phase == Stopped
    case _ => false
  }

  lemma RetryCounts(m: Machine)
    requires m.Valid()
    ensures var e, counts := Retry(m), !m.Terminal() && !m.retryScheduled;
            && e.m.attempt == m.attempt + (if counts then 1 else 0)
            && (StoppedNotice in e.out <==> counts && m.attempt + 1 > m.policy.maxRetries)
            && (e.m.retryScheduled <==> m.retryScheduled || (counts && StoppedNotice !in e.out))
            && (e.m.timerArmed <==> (m.timerArmed || ArmsTimer(e.out)) && StoppedNotice !in e.out)
            && (e.m.deadlineArmed <==> m.deadlineArmed && StoppedNotice !in e.out)
            && Dial !in e.out && Join !in e.out && !ArmsDeadline(e.out)
            && e.m.socketUp == m.socketUp && e.m.pendingJoin == m.pendingJoin
                && e.m.peerEverPresent == m.peerEverPresent
            && e.m.generation == m.generation
  {
    var out := Retry(m).out;
    if out != [] {
      assert out[0].ArmRetryTimer? || out == [StoppedNotice];
    }
  }

  predicate ArmsTimer(out: seq<Action>) {
    exists k :: 0 <= k < |out| && out[k].ArmRetryTimer?
  }

  predicate ArmsDeadline(out: seq<Action>) {
    exists k :: 0 <= k < |out| && out[k].ArmReconnectDeadline?
  }

  lemma AttemptStep(m: Machine, ev: Event)
    requires m.Valid()
    ensures Handle(m, ev).m.attempt == if Relieves(m, ev) then 0 else m.attempt + if Counts(m, ev) then 1 else 0
  {
    if RetryInput(m, ev).Some? {
      FailuresRetry(m, ev);
      RetryCounts(RetryInput(m, ev).value);
      hide Handle, Retry;
    } else {
      hide Retry;
    }
  }

  /** How many failures counted from event `j` on. */
  function CountedFrom(m: Machine, evs: seq<Event>, j: nat): nat
    requires m.Valid()
    decreases |evs|
  {
    if |evs| <= j then 0
    else
      var n := |evs| - 1;
      CountedFrom(m, evs[..n], j) + if Counts(After(m, evs[..n]), evs[n]) then 1 else 0
  }

  predicate RelievedAt(m: Machine, evs: seq<Event>, k: nat)
    requires m.Valid() && k < |evs|
  {
    Relieves(After(m, evs[..k]), evs[k])
  }

  /** In every trace the attempt count is the number of failures counted since the last relief, or since the
      beginning. */
  lemma {:induction false} AttemptsAreFailuresSinceRelief(policy: Policy, evs: seq<Event>, j: nat)
    requires policy.backoff != [] && j <= |evs|
    requires j > 0 ==> RelievedAt(New(policy), evs, j - 1)
    requires forall k :: j <= k < |evs| ==> !RelievedAt(New(policy), evs, k)
    ensures After(New(policy), evs).attempt == CountedFrom(New(policy), evs, j)
    decreases |evs|
  {
    hide Handle, Relieves, Counts;
    var m := New(policy);
    if evs == [] {
    } else {
      var n := |evs| - 1;
      AttemptStep(After(m, evs[..n]), evs[n]);
      if j == |evs| {
        assert RelievedAt(m, evs, n);
      } else {
        assert !RelievedAt(m, evs, n);
        forall k | 0 <= k < n
          ensures RelievedAt(m, evs[..n], k) == RelievedAt(m, evs, k)
        {
          assert evs[..n][..k] == evs[..k];
        }
        AttemptsAreFailuresSinceRelief(policy, evs[..n], j);
      }
    }
  }

  /** What can set a flag of the machine, and what can clear it. */
  datatype Flag = SocketFlag | PeerFlag | JoinFlag | TimerFlag | DeadlineFlag | PendingFlag

  predicate IsSet(m: Machine, flag: Flag) {
    match flag
    case SocketFlag => m.socketUp
    case PeerFlag => m.peerEverPresent
    case JoinFlag => m.pendingJoin
    case TimerFlag => m.timerArmed
    case DeadlineFlag => m.deadlineArmed
    case PendingFlag => m.retryScheduled
  }

  /** Told by the event, by what is done about it, and by whether it counts. */
  predicate Sets(m: Machine, ev: Event, out: seq<Action>, flag: Flag) {
    match flag
    case SocketFlag => ev.SocketUp?
    case PeerFlag => ev.BothReady? || ev.DcOpen?
    case JoinFlag => Dial in out
    case TimerFlag => ArmsTimer(out)
    case DeadlineFlag => ArmsDeadline(out)
    case PendingFlag => Counts(m, ev) && StoppedNotice !in out
  }

  predicate Clears(m: Machine, ev: Event, out: seq<Action>, flag: Flag) {
    match flag
    case SocketFlag => ev.SocketDown?
    case PeerFlag => false
    case JoinFlag => Join in out
    case TimerFlag =>
      ev.Joined? || ev.DcOpen? || ev.RetryTimer? || (ev.ManualRetry? && !m.Terminal()) || StoppedNotice in out
    case DeadlineFlag =>
      || ev.BothReady? || ev.DcOpen? || ev.ReconnectDeadline? || StoppedNotice in out
      || (ev.Joined? && m.attempt > 0 && !m.peerEverPresent)
    case PendingFlag =>
      || ev.Joined? || ev.DcOpen? || ev.TransferProgress? || (ev.ManualRetry? && !m.Terminal())
      || (ev.BothReady? && m.phase == Stopped) || StoppedNotice in out
  }

  lemma RetryFlags(m: Machine, ev: Event, flag: Flag)
    requires m.Valid() && RetryInput(m, ev).Some?
    ensures var e := Handle(m, ev);
            IsSet(e.m, flag) <==> Sets(m, ev, e.out, flag) || (IsSet(m, flag) && !Clears(m, ev, e.out, flag))
  {
    FailuresRetry(m, ev);
    RetryCounts(RetryInput(m, ev).value);
    hide Handle, Retry, ArmsTimer, ArmsDeadline;
  }

  lemma OtherFlags(m: Machine, ev: Event, flag: Flag)
    requires m.Valid() && RetryInput(m, ev).None? && !ev.ManualRetry? && !ev.RetryTimer?
    ensures var e := Handle(m, ev);
            IsSet(e.m, flag) <==> Sets(m, ev, e.out, flag) || (IsSet(m, flag) && !Clears(m, ev, e.out, flag))
  {
    hide Retry, Rejoin;
  }

  lemma TimerFlags(m: Machine, flag: Flag)
    requires m.Valid()
    ensures var e := Handle(m, RetryTimer);
            IsSet(e.m, flag)
            <==> Sets(m, RetryTimer, e.out, flag) || (IsSet(m, flag) && !Clears(m, RetryTimer, e.out, flag))
  {
    hide Retry;
    var e := Handle(m, RetryTimer);
    if m.timerArmed && !m.Terminal() {
      assert e.m.deadlineArmed && !e.m.timerArmed && e.m.retryScheduled == m.retryScheduled;
      if !m.deadlineArmed {
        assert e.out[1].ArmReconnectDeadline?;
      }
      hide Handle;
    }
  }

  lemma ManualFlags(m: Machine, flag: Flag)
    requires m.Valid()
    ensures var e := Handle(m, ManualRetry);
            IsSet(e.m, flag)
            <==> Sets(m, ManualRetry, e.out, flag) || (IsSet(m, flag) && !Clears(m, ManualRetry, e.out, flag))
  {
    hide Retry;
    if !m.Terminal() {
      assert Handle(m, ManualRetry).out[1].ArmReconnectDeadline?;
    }
  }

  predicate SetAt(policy: Policy, evs: seq<Event>, k: nat, flag: Flag)
    requires policy.backoff != [] && k < |evs|
  {
    Sets(After(New(policy), evs[..k]), evs[k], OutAt(New(policy), evs, k), flag)
  }

  predicate ClearedAt(policy: Policy, evs: seq<Event>, k: nat, flag: Flag)
    requires policy.backoff != [] && k < |evs|
  {
    Clears(After(New(policy), evs[..k]), evs[k], OutAt(New(policy), evs, k), flag)
  }

  /** Set at `i` and not cleared since. */
  predicate SetSince(policy: Policy, evs: seq<Event>, i: nat, flag: Flag)
    requires policy.backoff != []
  {
    i < |evs| && SetAt(policy, evs, i, flag) && forall j :: i < j < |evs| ==> !ClearedAt(policy, evs, j, flag)
  }

  lemma SetSinceOfPrefix(policy: Policy, evs: seq<Event>, i: nat, flag: Flag)
    requires policy.backoff != [] && i < |evs| - 1
    ensures SetSince(policy, evs, i, flag)
            <==> SetSince(policy, evs[..|evs| - 1], i, flag) && !ClearedAt(policy, evs, |evs| - 1, flag)
  {
    var n := |evs| - 1;
    hide Sets, Clears, OutAt, After;
    forall k | 0 <= k < n
      ensures SetAt(policy, evs[..n], k, flag) == SetAt(policy, evs, k, flag)
      ensures ClearedAt(policy, evs[..n], k, flag) == ClearedAt(policy, evs, k, flag)
    {
      assert evs[..n][..k] == evs[..k];
      OutAtOfPrefix(New(policy), evs, n, k);
    }
  }

  lemma FlagStep(m: Machine, ev: Event, flag: Flag)
    requires m.Valid()
    ensures var e := Handle(m, ev);
            IsSet(e.m, flag) <==> Sets(m, ev, e.out, flag) || (IsSet(m, flag) && !Clears(m, ev, e.out, flag))
  {
    hide *;
    if RetryInput(m, ev).Some? {
      RetryFlags(m, ev, flag);
    } else if ev.RetryTimer? {
      TimerFlags(m, flag);
    } else if ev.ManualRetry? {
      ManualFlags(m, flag);
    } else {
      OtherFlags(m, ev, flag);
    }
  }

  lemma FlagAt(policy: Policy, evs: seq<Event>, flag: Flag)
    requires policy.backoff != [] && evs != []
    ensures var n := |evs| - 1;
            IsSet(After(New(policy), evs), flag)
            <==> SetAt(policy, evs, n, flag)
                 || (IsSet(After(New(policy), evs[..n]), flag) && !ClearedAt(policy, evs, n, flag))
  {
    FlagStep(After(New(policy), evs[..|evs| - 1]), evs[|evs| - 1], flag);
    hide Sets, Clears, IsSet, Handle;
  }

  lemma SetSinceLast(policy: Policy, evs: seq<Event>, i: nat, flag: Flag)
    requires policy.backoff != [] && evs != [] && i >= |evs| - 1
    ensures SetSince(policy, evs, i, flag) <==> i == |evs| - 1 && SetAt(policy, evs, i, flag)
  {
    hide SetAt, ClearedAt;
  }

  lemma NothingSetYet(policy: Policy, flag: Flag)
    requires policy.backoff != []
    ensures !IsSet(After(New(policy), []), flag) && forall i: nat :: !SetSince(policy, [], i, flag)
  {
  }

  /** What the machine remembers, over every trace: the socket is up since the last report of it; a peer was there once
      one was ready or a channel opened; a join is owed since the last dial; a timer or deadline is armed since it was
      last set, and not since anything that settles it; a retry is pending since a failure that counted within the
      budget. */
  lemma {:induction false} FlagsMean(policy: Policy, evs: seq<Event>, flag: Flag)
    requires policy.backoff != []
    ensures IsSet(After(New(policy), evs), flag) <==> exists i: nat :: SetSince(policy, evs, i, flag)
  {
    hide *;
    if evs == [] {
      NothingSetYet(policy, flag);
    } else {
      var n := |evs| - 1;
      FlagsMean(policy, evs[..n], flag);
      FlagAt(policy, evs, flag);
      SetSinceLast(policy, evs, n, flag);
      if i: nat :| SetSince(policy, evs[..n], i, flag) {
        InPrefix(policy, evs[..n], i, flag);
        SetSinceOfPrefix(policy, evs, i, flag);
      }
      if i: nat :| SetSince(policy, evs, i, flag) {
        if i < n {
          SetSinceOfPrefix(policy, evs, i, flag);
        } else {
          SetSinceLast(policy, evs, i, flag);
        }
      }
    }
  }

  lemma InPrefix(policy: Policy, evs: seq<Event>, i: nat, flag: Flag)
    requires policy.backoff != [] && SetSince(policy, evs, i, flag)
    ensures i < |evs|
  {
  }

  // ---- phase and generation ------------------------------------------------------------------------------------

  /** The phase an event leads to, told by what it counts for and what is said about it. */
  function LeadsTo(m: Machine, ev: Event, out: seq<Action>): Option<Phase> {
    if StoppedNotice in out then Some(Stopped)
    else if Counts(m, ev) then Some(Reconnecting)
    else
      match ev
      case Start => Some(Connecting)
      case BothReady(_) => Some(Negotiating)
      case DcOpen => Some(Transferring)
      case TransferComplete => Some(Completed)
      case Error(code) =>
        if code in ["session_unavailable", "session_deleted", "evicted", "invalid_payload"] then Some(Expired) else None
      case ManualRetry => if m.Terminal() then None else Some(Reconnecting)
      case Joined(_, _) => if m.attempt == 0 || !m.peerEverPresent then Some(Waiting) else None
      case _ => None
  }

  /** The generation an event reports. */
  function Reports(ev: Event): Option<nat> {
    match ev
    case Joined(_, generation) => Some(generation)
    case BothReady(generation) => Some(generation)
    case _ => None
  }

  lemma ArmIsQuiet(m: Machine)
    requires m.Valid()
    ensures StoppedNotice !in Arm(m).out && Arm(m).m.phase == m.phase
  {
  }

  lemma RetryPhase(m: Machine)
    requires m.Valid()
    ensures var e, counts := Retry(m), !m.Terminal() && !m.retryScheduled;
            e.m.phase == if StoppedNotice in e.out then Stopped else if counts then Reconnecting else m.phase
  {
    if m.retryScheduled {
      ArmIsQuiet(m);
    } else if m.attempt + 1 <= m.policy.maxRetries {
      ArmIsQuiet(m.(attempt := m.attempt + 1, retryScheduled := true, phase := Reconnecting));
    }
    hide Arm;
  }

  lemma RetryLeads(m: Machine, ev: Event)
    requires m.Valid() && RetryInput(m, ev).Some?
    ensures var e := Handle(m, ev);
            && e.m.phase == (match LeadsTo(m, ev, e.out) case Some(p) => p case None => m.phase)
            && e.m.generation == m.generation && Reports(ev).None?
  {
    FailuresRetry(m, ev);
    RetryPhase(RetryInput(m, ev).value);
    RetryCounts(RetryInput(m, ev).value);
    hide Handle, Retry, ArmsTimer, ArmsDeadline;
  }

  lemma OtherLeads(m: Machine, ev: Event)
    requires m.Valid() && RetryInput(m, ev).None? && !ev.RetryTimer? && !ev.ManualRetry?
    ensures var e := Handle(m, ev);
            && e.m.phase == (match LeadsTo(m, ev, e.out) case Some(p) => p case None => m.phase)
            && e.m.generation == (match Reports(ev) case Some(g) => g case None => m.generation)
  {
    hide Retry, Rejoin;
  }

  lemma RejoinLeads(m: Machine, ev: Event)
    requires m.Valid() && (ev.RetryTimer? || ev.ManualRetry?)
    ensures var e := Handle(m, ev);
            && e.m.phase == (match LeadsTo(m, ev, e.out) case Some(p) => p case None => m.phase)
            && e.m.generation == (match Reports(ev) case Some(g) => g case None => m.generation)
  {
    hide Retry;
  }

  function LeadsAt(policy: Policy, evs: seq<Event>, k: nat): Option<Phase>
    requires policy.backoff != [] && k < |evs|
  {
    LeadsTo(After(New(policy), evs[..k]), evs[k], OutAt(New(policy), evs, k))
  }

  lemma LastStep(policy: Policy, evs: seq<Event>, n: nat)
    requires policy.backoff != [] && n < |evs|
    ensures var t, u := After(New(policy), evs[..n]), After(New(policy), evs[..n + 1]);
            && u.phase == (match LeadsAt(policy, evs, n) case Some(p) => p case None => t.phase)
            && u.generation == (match Reports(evs[n]) case Some(g) => g case None => t.generation)
  {
    assert evs[..n + 1][..n] == evs[..n];
    var m := After(New(policy), evs[..n]);
    hide Handle, LeadsTo;
    if RetryInput(m, evs[n]).Some? {
      RetryLeads(m, evs[n]);
    } else if evs[n].RetryTimer? || evs[n].ManualRetry? {
      RejoinLeads(m, evs[n]);
    } else {
      OtherLeads(m, evs[n]);
    }
  }

  lemma StartsIdle(policy: Policy, evs: seq<Event>)
    requires policy.backoff != []
    ensures After(New(policy), evs[..0]).phase == Idle
  {
  }

  /** In every trace the machine is in the phase of the last event that led to one, and still idle if none did. */
  lemma {:induction false} PhaseMeans(policy: Policy, evs: seq<Event>, n: nat, j: int)
    requires policy.backoff != [] && n <= |evs| && -1 <= j < n
    requires j >= 0 ==> LeadsAt(policy, evs, j).Some?
    requires forall k :: j < k < n ==> LeadsAt(policy, evs, k).None?
    ensures After(New(policy), evs[..n]).phase == if j >= 0 then LeadsAt(policy, evs, j).value else Idle
    decreases n
  {
    hide *;
    if n == 0 {
      StartsIdle(policy, evs);
    } else {
      LastStep(policy, evs, n - 1);
      if j < n - 1 {
        assert LeadsAt(policy, evs, n - 1).None?;
        PhaseMeans(policy, evs, n - 1, j);
      }
    }
  }

  /** In every trace the generation is the one last reported, and zero before. */
  lemma {:induction false} GenerationMeans(policy: Policy, evs: seq<Event>, n: nat, j: int)
    requires policy.backoff != [] && n <= |evs| && -1 <= j < n
    requires j >= 0 ==> Reports(evs[j]).Some?
    requires forall k :: j < k < n ==> Reports(evs[k]).None?
    ensures After(New(policy), evs[..n]).generation == if j >= 0 then Reports(evs[j]).value else 0
    decreases n
  {
    if n == 0 {
    } else {
      LastStep(policy, evs, n - 1);
      hide After, Reports;
      if j < n - 1 {
        assert Reports(evs[n - 1]).None?;
        GenerationMeans(policy, evs, n - 1, j);
      }
    }
  }

  // ---- what is said ----------------------------------------------------------------------------------------------

  /** A timer that fires, or a user's retry, makes the peer join again. */
  predicate Retries(m: Machine, ev: Event) {
    !m.Terminal() && (ev.ManualRetry? || (ev.RetryTimer? && m.timerArmed))
  }

  /** A failure that is answered at all: it counts, or a retry is already pending. */
  predicate Fails(m: Machine, ev: Event) {
    Counts(m, ev) || (RetryInput(m, ev).Some? && !m.Terminal())
  }

  /** When each thing is said, and with which value. */
  ghost predicate SaysExactly(m: Machine, ev: Event, out: seq<Action>, largest: nat) {
    && (forall a :: a in out && a.BuildPc? ==> a.resumeFrom == largest)
    && ((exists k :: 0 <= k < |out| && out[k].BuildPc?) <==> ev.BothReady?)
    && (CompletedNotice in out <==> ev.TransferComplete?)
    && (ExpiredNotice in out
        <==> ev.Error? && ev.code in ["session_unavailable", "session_deleted", "evicted", "invalid_payload"])
    && (StoppedNotice in out <==> Counts(m, ev) && m.attempt >= m.policy.maxRetries)
    && (Dial in out <==> ev.Start? || (Retries(m, ev) && !m.socketUp))
    && (Join in out <==> (ev.SocketUp? && m.pendingJoin) || (Retries(m, ev) && m.socketUp))
    && (ArmsTimer(out) <==> Fails(m, ev) && !m.timerArmed && StoppedNotice !in out)
    && (ArmsDeadline(out) <==> Retries(m, ev) && (ev.ManualRetry? || !m.deadlineArmed))
    && (forall a :: a in out && a.ArmReconnectDeadline? ==> a.delay == m.policy.iceTimeout)
    && |out| <= 2 && (|out| == 2 ==> Retries(m, ev))
  }

  lemma RetrySays(m: Machine)
    requires m.Valid()
    ensures var out := Retry(m).out;
            && |out| <= 1 && (forall a :: a in out ==> a.ArmRetryTimer? || a == StoppedNotice)
            && (ArmsTimer(out) <==> !m.Terminal() && !m.timerArmed && StoppedNotice !in out)
  {
    var out := Retry(m).out;
    if out != [] && out[0].ArmRetryTimer? {
      assert ArmsTimer(out);
    }
  }

  lemma FailureSays(m: Machine, ev: Event)
    requires m.Valid() && RetryInput(m, ev).Some?
    ensures SaysExactly(m, ev, Handle(m, ev).out, m.resumeFrom)
  {
    FailuresRetry(m, ev);
    RetryCounts(RetryInput(m, ev).value);
    RetrySays(RetryInput(m, ev).value);
    hide Handle, Retry;
  }

  lemma OtherSays(m: Machine, ev: Event)
    requires m.Valid() && RetryInput(m, ev).None? && !ev.RetryTimer? && !ev.ManualRetry?
    ensures SaysExactly(m, ev, Handle(m, ev).out, m.resumeFrom)
  {
    hide Retry, Rejoin;
    var out := Handle(m, ev).out;
    if ev.BothReady? {
      assert out[0].BuildPc?;
    }
  }

  lemma RejoinSays(m: Machine, ev: Event)
    requires m.Valid() && (ev.RetryTimer? || ev.ManualRetry?)
    ensures SaysExactly(m, ev, Handle(m, ev).out, m.resumeFrom)
  {
    hide Retry;
    var out := Handle(m, ev).out;
    if Retries(m, ev) && (ev.ManualRetry? || !m.deadlineArmed) {
      assert out[1].ArmReconnectDeadline?;
    }
  }

  /** Exact, in every trace: what the machine says at each event, with which values, and nothing more. The peer
      connection is built when both are ready, from the largest offset reported; a dial goes out when the socket is
      down, a join when it is up or comes up and one is owed; timers are armed once. */
  lemma SpeaksExactly(policy: Policy, evs: seq<Event>, k: nat)
    requires policy.backoff != [] && k < |evs|
    ensures SaysExactly(After(New(policy), evs[..k]), evs[k], OutAt(New(policy), evs, k), LargestOffset(evs[..k]))
  {
    ResumePointIsLargest(policy, evs[..k]);
    hide *;
    var m := After(New(policy), evs[..k]);
    if RetryInput(m, evs[k]).Some? {
      FailureSays(m, evs[k]);
    } else if evs[k].RetryTimer? || evs[k].ManualRetry? {
      RejoinSays(m, evs[k]);
    } else {
      OtherSays(m, evs[k]);
    }
    OutIs(policy, evs, k);
  }

  lemma OutIs(policy: Policy, evs: seq<Event>, k: nat)
    requires policy.backoff != [] && k < |evs|
    ensures OutAt(New(policy), evs, k) == Handle(After(New(policy), evs[..k]), evs[k]).out
  {
  }
}
