/** The embedded single-session relay: who is present, when both are ready, and the resume checkpoint. */
module Relay {
  import opened Wrappers

  datatype Event =
    | Join(sid: string, role: string)
    | AckSeen(through: Option<nat>)
    | Disconnect(sid: string)

  datatype Emission =
    | Joined(generation: nat, lastChunkOffset: nat, senderConnected: bool, recipientConnected: bool)
    | BothReady(generation: nat)
    | PeerDisconnected(role: string)

  datatype RelayState = RelayState(
    generation: nat,
    senderPresent: bool,
    recipientPresent: bool,
    senderArmed: bool,
    recipientArmed: bool,
    lastChunkOffset: nat,
    roles: map<string, string>)

  const SENDER := "sender"
  const RECIPIENT := "recipient"

  function Empty(): RelayState {
    RelayState(0, false, false, false, false, 0, map[])
  }

  // ---- one event -----------------------------------------------------------------------------------

  /** A join noted, before the relay looks whether both are armed. */
  function Noted(r: RelayState, sid: string, role: string): RelayState {
    var s := r.(roles := r.roles[sid := role]);
    if role == SENDER then s.(senderPresent := true, senderArmed := true)
    else if role == RECIPIENT then s.(recipientPresent := true, recipientArmed := true)
    else s
  }

  predicate KnownRole(role: string) {
    role == SENDER || role == RECIPIENT
  }

  function Step(r: RelayState, e: Event): RelayState {
    match e
    case Join(sid, role) =>
      var s := Noted(r, sid, role);
      if KnownRole(role) && s.senderArmed && s.recipientArmed
      then s.(generation := s.generation + 1, senderArmed := false, recipientArmed := false)
      else s
    case AckSeen(through) =>
      if through.Some? && through.value > r.lastChunkOffset then r.(lastChunkOffset := through.value) else r
    case Disconnect(sid) =>
      if sid !in r.roles then r
      else
        var s := r.(roles := r.roles - {sid});
        if r.roles[sid] == SENDER then s.(senderPresent := false, senderArmed := false)
        else if r.roles[sid] == RECIPIENT
        then s.(recipientPresent := false, recipientArmed := false, lastChunkOffset := 0)
        else s
  }

  function Emits(r: RelayState, e: Event): seq<Emission> {
    match e
    case Join(sid, role) =>
      var s := Noted(r, sid, role);
      if !KnownRole(role) then []
      else [Joined(s.generation, s.lastChunkOffset, s.senderPresent, s.recipientPresent)]
           + (if s.senderArmed && s.recipientArmed then [BothReady(s.generation + 1)] else [])
    case AckSeen(_) => []
    case Disconnect(sid) => if sid in r.roles then [PeerDisconnected(r.roles[sid])] else []
  }

  class Relay {
    var generation: nat
    var senderPresent: bool
    var recipientPresent: bool
    var senderArmed: bool
    var recipientArmed: bool
    var lastChunkOffset: nat
    var roles: map<string, string>

    ghost function State(): RelayState
      reads this
    {
      RelayState(generation, senderPresent, recipientPresent, senderArmed, recipientArmed, lastChunkOffset, roles)
    }

    constructor ()
      ensures State() == Empty()
    {
      generation, lastChunkOffset := 0, 0;
      senderPresent, recipientPresent, senderArmed, recipientArmed := false, false, false, false;
      roles := map[];
    }

    method OnJoin(sid: string, role: string) returns (out: seq<Emission>)
      modifies this
      ensures State() == Step(old(State()), Join(sid, role))
      ensures out == Emits(old(State()), Join(sid, role))
    {
      roles := roles[sid := role];
      if role == SENDER {
        senderPresent := true;
        senderArmed := true;
      } else if role == RECIPIENT {
        recipientPresent := true;
        recipientArmed := true;
      } else {
        return [];
      }
      out := [Joined(generation, lastChunkOffset, senderPresent, recipientPresent)];
      if senderArmed && recipientArmed {
        generation := generation + 1;
        senderArmed := false;
        recipientArmed := false;
        out := out + [BothReady(generation)];
      }
    }

    method OnAck(through: Option<nat>)
      modifies this
      ensures State() == Step(old(State()), AckSeen(through))
    {
      if through.Some? {
        if through.value > lastChunkOffset {
          lastChunkOffset := through.value;
        }
      }
    }

    method OnDisconnect(sid: string) returns (out: seq<Emission>)
      modifies this
      ensures State() == Step(old(State()), Disconnect(sid))
      ensures out == Emits(old(State()), Disconnect(sid))
    {
      out := [];
      if sid in roles {
        var role := roles[sid];
        roles := roles - {sid};
        if role == SENDER {
          senderPresent := false;
          senderArmed := false;
        } else if role == RECIPIENT {
          recipientPresent := false;
          recipientArmed := false;
          lastChunkOffset := 0;
        }
        out := [PeerDisconnected(role)];
      }
    }
  }

  // ---- whole histories --------------------------------------------------------------------------------

  function After(h: seq<Event>): RelayState {
    if h == [] then Empty() else Step(After(h[..|h| - 1]), h[|h| - 1])
  }

  /** What the relay emitted at event `k`. */
  function EmittedAt(h: seq<Event>, k: nat): seq<Emission>
    requires k < |h|
  {
    Emits(After(h[..k]), h[k])
  }

  predicate BroadcastAt(h: seq<Event>, k: nat)
    requires k < |h|
  {
    exists n :: 0 <= n < |EmittedAt(h, k)| && EmittedAt(h, k)[n].BothReady?
  }

  /** The disconnection at `k` is that of a socket which last joined as `role`. */
  predicate DropsAt(h: seq<Event>, k: nat, role: string)
    requires k < |h|
  {
    h[k].Disconnect? && PeerDisconnected(role) in EmittedAt(h, k)
  }

  lemma DropMeans(h: seq<Event>, k: nat, role: string)
    requires k < |h|
    ensures var r := After(h[..k]);
            DropsAt(h, k, role) <==> h[k].Disconnect? && h[k].sid in r.roles && r.roles[h[k].sid] == role
  {
    hide After;
  }

  predicate JoinsAt(h: seq<Event>, k: nat, role: string)
    requires k < |h|
  {
    h[k].Join? && h[k].role == role
  }

  function Broadcasts(h: seq<Event>): nat {
    if h == [] then 0
    else Broadcasts(h[..|h| - 1]) + (if BroadcastAt(h, |h| - 1) then 1 else 0)
  }

  lemma AtOfPrefix(h: seq<Event>, k: nat)
    requires k < |h| - 1
    ensures EmittedAt(h[..|h| - 1], k) == EmittedAt(h, k)
  {
    assert h[..|h| - 1][..k] == h[..k];
  }

  lemma BroadcastMeans(h: seq<Event>, k: nat)
    requires k < |h|
    ensures BroadcastAt(h, k)
            <==> h[k].Join? && KnownRole(h[k].role)
                 && Noted(After(h[..k]), h[k].sid, h[k].role).senderArmed
                 && Noted(After(h[..k]), h[k].sid, h[k].role).recipientArmed
  {
    var out := EmittedAt(h, k);
    if |out| == 2 {
      assert out[1].BothReady?;
    }
  }

  /** The generation counts the both-ready broadcasts, and each broadcast carries its own number. */
  lemma {:induction false} GenerationCountsBroadcasts(h: seq<Event>)
    ensures After(h).generation == Broadcasts(h)
    ensures h != [] && BroadcastAt(h, |h| - 1) ==> BothReady(Broadcasts(h)) in EmittedAt(h, |h| - 1)
  {
    if h == [] {
    } else {
      var k := |h| - 1;
      GenerationCountsBroadcasts(h[..k]);
      BroadcastMeans(h, k);
      if BroadcastAt(h, k) {
        assert EmittedAt(h, k)[1] == BothReady(Broadcasts(h));
      }
    }
  }

  predicate Armed(r: RelayState, role: string) {
    if role == SENDER then r.senderArmed else r.recipientArmed
  }

  /** `role` joined at `i`, and neither dropped nor took part in a broadcast since. */
  predicate ArmedSince(h: seq<Event>, i: nat, role: string) {
    && i < |h| && JoinsAt(h, i, role)
    && forall j :: i <= j < |h| ==> !BroadcastAt(h, j) && !DropsAt(h, j, role)
  }

  lemma ArmedSinceOfPrefix(h: seq<Event>, i: nat, role: string)
    requires i < |h| - 1
    ensures ArmedSince(h, i, role)
            <==> ArmedSince(h[..|h| - 1], i, role) && !BroadcastAt(h, |h| - 1) && !DropsAt(h, |h| - 1, role)
  {
    var g := h[..|h| - 1];
    forall j | 0 <= j < |g|
      ensures BroadcastAt(g, j) == BroadcastAt(h, j) && DropsAt(g, j, role) == DropsAt(h, j, role)
    {
      AtOfPrefix(h, j);
    }
  }

  /** A role is armed exactly when it has joined since the last broadcast and not dropped since that. */
  lemma {:induction false} ArmedMeans(h: seq<Event>, role: string)
    requires KnownRole(role)
    ensures Armed(After(h), role) <==> exists i :: 0 <= i < |h| && ArmedSince(h, i, role)
  {
    if h == [] {
    } else {
      var k := |h| - 1;
      var g := h[..k];
      ArmedMeans(g, role);
      BroadcastMeans(h, k);
      var stays := !BroadcastAt(h, k) && !DropsAt(h, k, role);
      assert Armed(After(h), role) <==> stays && (Armed(After(g), role) || JoinsAt(h, k, role));
      if i :| 0 <= i < |g| && ArmedSince(g, i, role) {
        ArmedSinceOfPrefix(h, i, role);
      }
      if i :| 0 <= i < |h| && ArmedSince(h, i, role) {
        if i < k {
          ArmedSinceOfPrefix(h, i, role);
        }
      }
      assert stays && JoinsAt(h, k, role) ==> ArmedSince(h, k, role);
    }
  }

  lemma BroadcastOfPrefix(h: seq<Event>, m: nat, k: nat)
    requires k < m <= |h|
    ensures BroadcastAt(h[..m], k) == BroadcastAt(h, k)
  {
    assert h[..m][..k] == h[..k];
    assert EmittedAt(h[..m], k) == EmittedAt(h, k);
  }

  /** Both peers really re-joined: between one both-ready broadcast and the next there is a join of
      each role, and before the first there is one of each. */
  lemma BothRejoinBetweenBroadcasts(h: seq<Event>, first: int, second: nat, role: string)
    requires KnownRole(role) && -1 <= first < second < |h| && BroadcastAt(h, second)
    requires first >= 0 ==> BroadcastAt(h, first)
    ensures exists i :: first < i <= second && JoinsAt(h, i, role)
  {
    BroadcastMeans(h, second);
    if !JoinsAt(h, second, role) {
      var g := h[..second];
      ArmedMeans(g, role);
      var i :| 0 <= i < |g| && ArmedSince(g, i, role);
      assert JoinsAt(h, i, role);
      if 0 <= first {
        BroadcastOfPrefix(h, second, first);
      }
    }
  }

  /** An acknowledgement of `t` that no recipient drop has wiped out since. */
  predicate AckStands(h: seq<Event>, i: nat, t: nat) {
    i < |h| && h[i] == AckSeen(Some(t)) && forall j :: i < j < |h| ==> !DropsAt(h, j, RECIPIENT)
  }

  lemma AckStandsOfPrefix(h: seq<Event>, i: nat, t: nat)
    requires i < |h| - 1
    ensures AckStands(h, i, t) <==> AckStands(h[..|h| - 1], i, t) && !DropsAt(h, |h| - 1, RECIPIENT)
  {
    var g := h[..|h| - 1];
    forall j | 0 <= j < |g|
      ensures DropsAt(g, j, RECIPIENT) == DropsAt(h, j, RECIPIENT)
    {
      AtOfPrefix(h, j);
    }
  }

  /** The checkpoint is the largest acknowledgement since the recipient last dropped, or zero. */
  lemma {:induction false} CheckpointIsLargestAck(h: seq<Event>)
    ensures forall i: nat, t: nat :: AckStands(h, i, t) ==> t <= After(h).lastChunkOffset
    ensures After(h).lastChunkOffset == 0 || exists i: nat :: AckStands(h, i, After(h).lastChunkOffset)
  {
    if h == [] {
    } else {
      var k := |h| - 1;
      var g := h[..k];
      var c := After(g).lastChunkOffset;
      CheckpointIsLargestAck(g);
      var e := h[k];
      DropMeans(h, k, RECIPIENT);
      hide DropsAt;
      forall i: nat, t: nat | AckStands(h, i, t)
        ensures t <= After(h).lastChunkOffset
      {
        if i < k {
          AckStandsOfPrefix(h, i, t);
        }
      }
      var now := After(h).lastChunkOffset;
      if now != 0 {
        if now == c && !(e == AckSeen(Some(now))) {
          var i: nat :| AckStands(g, i, c);
          AckStandsOfPrefix(h, i, c);
        } else {
          assert AckStands(h, k, now);
        }
      }
    }
  }

  // ---- what a join is told ----------------------------------------------------------------------------------

  /** This socket's last word is that it joined as `role`. */
  predicate RegisteredAt(h: seq<Event>, i: nat, sid: string, role: string) {
    && i < |h| && h[i] == Join(sid, role)
    && forall j :: i < j < |h| ==> !Concerns(h[j], sid)
  }

  predicate Concerns(e: Event, sid: string) {
    (e.Join? && e.sid == sid) || e == Disconnect(sid)
  }

  lemma RegisteredOfPrefix(h: seq<Event>, i: nat, sid: string, role: string)
    requires i < |h| - 1
    ensures RegisteredAt(h, i, sid, role) <==> RegisteredAt(h[..|h| - 1], i, sid, role) && !Concerns(h[|h| - 1], sid)
  {
    var g := h[..|h| - 1];
    assert forall j :: 0 <= j < |g| ==> g[j] == h[j];
  }

  lemma NotedRoles(r: RelayState, sid: string, role: string)
    ensures Step(r, Join(sid, role)).roles == r.roles[sid := role]
  {
    hide KnownRole;
  }

  lemma RolesStep(r: RelayState, e: Event, sid: string, role: string)
    ensures var t := Step(r, e);
            sid in t.roles && t.roles[sid] == role
            <==> e == Join(sid, role) || (!Concerns(e, sid) && sid in r.roles && r.roles[sid] == role)
  {
    match e {
      case Join(who, what) =>
        NotedRoles(r, who, what);
        hide Step;
      case Disconnect(who) =>
        assert who in r.roles ==> Step(r, e).roles == r.roles - {who};
        hide Step;
      case _ =>
    }
  }

  /** The relay knows of each socket what that socket last said, until it disconnects. */
  lemma {:induction false} RolesMean(h: seq<Event>, sid: string, role: string)
    ensures sid in After(h).roles && After(h).roles[sid] == role <==> exists i: nat :: RegisteredAt(h, i, sid, role)
  {
    if h == [] {
    } else {
      var k := |h| - 1;
      RolesMean(h[..k], sid, role);
      RolesStep(After(h[..k]), h[k], sid, role);
      hide Step;
      if i: nat :| RegisteredAt(h[..k], i, sid, role) {
        RegisteredOfPrefix(h, i, sid, role);
      }
      if i: nat :| RegisteredAt(h, i, sid, role) {
        if i < k {
          RegisteredOfPrefix(h, i, sid, role);
        }
      }
      if h[k] == Join(sid, role) {
        assert RegisteredAt(h, k, sid, role);
      }
    }
  }

  /** A drop of a role is the disconnection of a socket whose last join was in that role. */
  lemma DropsIff(h: seq<Event>, k: nat, role: string)
    requires k < |h|
    ensures DropsAt(h, k, role) <==> h[k].Disconnect? && exists i: nat :: RegisteredAt(h[..k], i, h[k].sid, role)
  {
    if h[k].Disconnect? {
      RolesMean(h[..k], h[k].sid, role);
    }
  }

  predicate Present(r: RelayState, role: string) {
    if role == SENDER then r.senderPresent else r.recipientPresent
  }

  /** `role` joined at `i` and has not dropped since. */
  predicate PresentSince(h: seq<Event>, i: nat, role: string) {
    i < |h| && JoinsAt(h, i, role) && forall j :: i <= j < |h| ==> !DropsAt(h, j, role)
  }

  lemma PresentSinceOfPrefix(h: seq<Event>, i: nat, role: string)
    requires i < |h| - 1
    ensures PresentSince(h, i, role) <==> PresentSince(h[..|h| - 1], i, role) && !DropsAt(h, |h| - 1, role)
  {
    var g := h[..|h| - 1];
    forall j | 0 <= j < |g|
      ensures DropsAt(g, j, role) == DropsAt(h, j, role)
    {
      AtOfPrefix(h, j);
    }
  }

  lemma PresentStep(r: RelayState, e: Event, role: string)
    requires KnownRole(role)
    ensures Present(Step(r, e), role)
            <==> || (Present(r, role) && !(e.Disconnect? && e.sid in r.roles && r.roles[e.sid] == role))
                 || (e.Join? && e.role == role)
  {
    match e {
      case Join(_, _) =>
      case Disconnect(_) =>
      case AckSeen(_) =>
    }
  }

  lemma {:induction false} PresentMeans(h: seq<Event>, role: string)
    requires KnownRole(role)
    ensures Present(After(h), role) <==> exists i: nat :: PresentSince(h, i, role)
  {
    if h == [] {
    } else {
      var k := |h| - 1;
      PresentMeans(h[..k], role);
      PresentStep(After(h[..k]), h[k], role);
      DropMeans(h, k, role);
      hide Step, DropsAt, Present;
      if i: nat :| PresentSince(h[..k], i, role) {
        PresentSinceOfPrefix(h, i, role);
      }
      if i: nat :| PresentSince(h, i, role) {
        if i < k {
          PresentSinceOfPrefix(h, i, role);
        }
      }
      assert !DropsAt(h, k, role) && JoinsAt(h, k, role) ==> PresentSince(h, k, role);
    }
  }

  /** What a join says, told from the history before it alone. */
  ghost predicate Answers(g: seq<Event>, role: string, a: Emission) {
    && a.Joined? && a.generation == Broadcasts(g)
    && (forall i: nat, t: nat :: AckStands(g, i, t) ==> t <= a.lastChunkOffset)
    && (a.lastChunkOffset == 0 || exists i: nat :: AckStands(g, i, a.lastChunkOffset))
    && (a.senderConnected <==> role == SENDER || exists i: nat :: PresentSince(g, i, SENDER))
    && (a.recipientConnected <==> role == RECIPIENT || exists i: nat :: PresentSince(g, i, RECIPIENT))
  }

  /** In every history each join of a known role is answered first of all, and once: with the number of broadcasts so
      far, the largest acknowledgement that no recipient drop has wiped out, and who is present, itself included. The
      only other thing it can bring about is the next broadcast. */
  lemma JoinIsAnswered(h: seq<Event>, k: nat)
    requires k < |h| && h[k].Join? && KnownRole(h[k].role)
    ensures var out := EmittedAt(h, k);
            && out != [] && Answers(h[..k], h[k].role, out[0])
            && out[1..] == if BroadcastAt(h, k) then [BothReady(Broadcasts(h[..k]) + 1)] else []
  {
    var g := h[..k];
    GenerationCountsBroadcasts(g);
    CheckpointIsLargestAck(g);
    PresentMeans(g, SENDER);
    PresentMeans(g, RECIPIENT);
    BroadcastMeans(h, k);
    hide AckStands, PresentSince, Broadcasts, BroadcastAt, After;
  }

  /** Nothing else is ever said: a join in another role, an acknowledgement and a stranger's disconnection are answered
      with nothing, any other disconnection with the role that is gone. */
  lemma OthersAreQuiet(h: seq<Event>, k: nat)
    requires k < |h| && !(h[k].Join? && KnownRole(h[k].role))
    ensures match h[k]
            case Disconnect(sid) =>
              (exists i: nat, role :: RegisteredAt(h[..k], i, sid, role) && EmittedAt(h, k) == [PeerDisconnected(role)])
              || (EmittedAt(h, k) == [] && forall i: nat, role :: !RegisteredAt(h[..k], i, sid, role))
            case _ => EmittedAt(h, k) == []
  {
    if h[k].Disconnect? {
      var sid, r := h[k].sid, After(h[..k]);
      if sid in r.roles {
        RolesMean(h[..k], sid, r.roles[sid]);
      } else {
        forall i: nat, role
          ensures !RegisteredAt(h[..k], i, sid, role)
        {
          RolesMean(h[..k], sid, role);
        }
      }
    }
  }
}
