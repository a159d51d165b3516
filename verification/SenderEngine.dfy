/** The sender's half of the chunk protocol: a sliding window over chunk indices. */
module SenderEngines {
  import opened Bytes
  import opened Wrappers

  datatype SenderAction =
    | Metadata(resumeFrom: nat)
    | Chunk(index: nat)
    | End(total: nat)

  /** The engine's fields as a value; all of them are 64-bit unsigned in the program. */
  datatype SenderState = SenderState(total: nat, window: nat, base: nat, next: nat, endSent: bool) {
    predicate Valid() {
      total < U64 && 1 <= window < U64 && base < U64 && next < U64
    }
  }

  // 64-bit arithmetic as a release build performs it.
  function WrappingSub(a: nat, b: nat): (d: nat)
    requires a < U64 && b < U64
    ensures d < U64
    ensures b <= a <==> d == a - b
    ensures d + b in {a, a + U64}
  {
    if b <= a then a - b else a + U64 - b
  }

  function WrappingSucc(a: nat): (r: nat)
    requires a < U64
    ensures r < U64
  {
    if a + 1 == U64 then 0 else a + 1
  }

  function Min(a: int, b: int): int { if a <= b then a else b }

  function Max(a: int, b: int): int { if a <= b then b else a }

  // ---- what one call does, stated without its loop -----------------------------

  /** Where `next` stands once the window is full. A `base` ahead of `next` makes the program's
      unsigned subtraction wrap, which moves the window's edge back by 2^64. */
  function Edge(s: SenderState): int {
    s.base + s.window - (if s.base <= s.next then 0 else U64)
  }

  function Filled(s: SenderState): (next: nat)
    ensures s.next <= next
  {
    Max(s.next, Min(s.total, Edge(s)))
  }

  function Chunks(lo: nat, hi: nat): (cs: seq<SenderAction>)
    requires lo <= hi
    ensures |cs| == hi - lo
    ensures forall k :: 0 <= k < hi - lo ==> cs[k] == Chunk(lo + k)
  {
    seq(hi - lo, k requires 0 <= k < hi - lo => Chunk(lo + k))
  }

  function Pumped(s: SenderState): SenderState {
    s.(next := Filled(s), endSent := s.endSent || Filled(s) >= s.total)
  }

  /** The chunks that fill the window, in order, then the end marker if it is due. */
  function PumpActions(s: SenderState): seq<SenderAction> {
    Chunks(s.next, Filled(s)) + (if Filled(s) >= s.total && !s.endSent then [End(s.total)] else [])
  }

  function Rewound(s: SenderState, from: nat): SenderState {
    s.(base := from, next := from, endSent := false)
  }

  function Acked(s: SenderState, through: nat): SenderState
    requires through < U64
  {
    s.(base := Max(s.base, WrappingSucc(through)))
  }

  function Opened(s: SenderState, from: nat): SenderState {
    Pumped(Rewound(s, from))
  }

  function OpenActions(s: SenderState, from: nat): seq<SenderAction> {
    [Metadata(from)] + PumpActions(Rewound(s, from))
  }

  function AfterAck(s: SenderState, through: nat): SenderState
    requires through < U64
  {
    Pumped(Acked(s, through))
  }

  function AckActions(s: SenderState, through: nat): seq<SenderAction>
    requires through < U64
  {
    PumpActions(Acked(s, through))
  }

  function Fresh(total: nat, window: nat): SenderState {
    SenderState(total, window, 0, 0, false)
  }

  function SentThrough(s: SenderState): Option<nat> {
    if s.next == 0 then None else Some(s.next - 1)
  }

  // ---- the engine ----------------------------------------------------------------

  class SenderEngine {
    var total: nat
    var window: nat
    var base: nat
    var next: nat
    var endSent: bool

    ghost function State(): SenderState
      reads this
    {
      SenderState(total, window, base, next, endSent)
    }

    ghost predicate Valid()
      reads this
    {
      State().Valid()
    }

    constructor (total: nat, window: nat)
      requires total < U64 && 1 <= window < U64
      ensures Valid() && State() == Fresh(total, window)
    {
      this.total, this.window := total, window;
      base, next, endSent := 0, 0, false;
    }

    method Open(resumeFrom: nat) returns (actions: seq<SenderAction>)
      requires Valid() && resumeFrom < U64
      modifies this
      ensures Valid()
      ensures State() == Opened(old(State()), resumeFrom)
      ensures actions == OpenActions(old(State()), resumeFrom)
    {
      base := resumeFrom;
      next := resumeFrom;
      endSent := false;
      var pumped := Pump();
      actions := [Metadata(resumeFrom)] + pumped;
    }

    method Ack(through: nat) returns (actions: seq<SenderAction>)
      requires Valid() && through < U64
      modifies this
      ensures Valid()
      ensures State() == AfterAck(old(State()), through)
      ensures actions == AckActions(old(State()), through)
    {
      if WrappingSucc(through) > base {
        base := WrappingSucc(through);
      }
      actions := Pump();
    }

    method Request(from: nat) returns (actions: seq<SenderAction>)
      requires Valid() && from < U64
      modifies this
      ensures Valid()
      ensures State() == Opened(old(State()), from)
      ensures actions == OpenActions(old(State()), from)
    {
      base := from;
      next := from;
      endSent := false;
      var pumped := Pump();
      actions := [Metadata(from)] + pumped;
    }

    method Pump() returns (actions: seq<SenderAction>)
      requires Valid()
      modifies this
      ensures Valid()
      ensures State() == Pumped(old(State()))
      ensures actions == PumpActions(old(State()))
    {
      actions := [];
      ghost var start := State();
      while next < total && WrappingSub(next, base) < window
        invariant Valid()
        invariant start.next <= next <= Filled(start)
        invariant State() == start.(next := next)
        invariant (start.base <= next) == (start.base <= start.next)
        invariant actions == Chunks(start.next, next)
        decreases total - next
      {
        actions := actions + [Chunk(next)];
        next := next + 1;
      }
      if next >= total && !endSent {
        actions := actions + [End(total)];
        endSent := true;
      }
    }

    method EndEmitted() returns (emitted: bool)
      ensures emitted == endSent
    {
      emitted := endSent;
    }

    method SentThroughIndex() returns (last: Option<nat>)
      ensures last == SentThrough(State())
    {
      if next == 0 {
        last := None;
      } else {
        last := Some(next - 1);
      }
    }
  }

  // ---- what the calls mean ---------------------------------------------------------

  /** An acknowledgement keeps `base` within `next` exactly when it names a chunk already sent (or
      is the largest 64-bit value, whose successor wraps to zero). Any other one inverts the window;
      unless the overshoot and the window together wrap past 2^64, nothing is sent after it. */
  lemma AckKeepsWindowIff(s: SenderState, through: nat)
    requires s.Valid() && s.base <= s.next && through < U64
    ensures AfterAck(s, through).base <= AfterAck(s, through).next
            <==> through < s.next || through + 1 == U64
    ensures s.next <= through < U64 - 1 && s.window + (through + 1 - s.next) <= U64
            ==> AfterAck(s, through).next == s.next
                && Filled(AfterAck(s, through)) == s.next
                && (s.next < s.total ==> AckActions(s, through) == [])
  {
  }

  /** After any pump with an upright window there is no more room, the end marker has been sent
      once the last chunk has, and pumping again does nothing. */
  lemma PumpIsIdempotent(s: SenderState)
    requires s.Valid() && s.base <= s.next
    ensures PumpActions(Pumped(s)) == []
    ensures Pumped(Pumped(s)) == Pumped(s)
    ensures Pumped(s).next < s.total ==> Pumped(s).next >= s.base + s.window
  {
  }

  /** Opening at `from` announces it, then sends exactly the chunks `from .. min(total, from + window)`,
      then the end marker exactly when they reach `total`. */
  lemma OpenSendsOneWindow(s: SenderState, from: nat)
    requires s.Valid() && from <= s.total
    ensures var hi := Min(s.total, from + s.window);
            OpenActions(s, from)
            == [Metadata(from)] + Chunks(from, hi) + (if hi == s.total then [End(s.total)] else [])
  {
    assert Filled(Rewound(s, from)) == Min(s.total, from + s.window);
  }

  /** Opening beyond the total announces it and ends at once. */
  lemma OpenBeyondTotalEnds(s: SenderState, from: nat)
    requires s.Valid() && from > s.total
    ensures OpenActions(s, from) == [Metadata(from), End(s.total)]
  {
    assert Filled(Rewound(s, from)) == from;
  }

  // ---- what a whole series of calls emits --------------------------------------------

  datatype SenderCall = CallOpen(from: nat) | CallAck(through: nat) | CallRequest(from: nat) | CallPump

  predicate InRange(calls: seq<SenderCall>) {
    forall k :: 0 <= k < |calls| && calls[k].CallAck? ==> calls[k].through < U64
  }

  function AfterCall(s: SenderState, c: SenderCall): SenderState
    requires c.CallAck? ==> c.through < U64
  {
    match c
    case CallOpen(from) => Opened(s, from)
    case CallAck(through) => AfterAck(s, through)
    case CallRequest(from) => Opened(s, from)
    case CallPump => Pumped(s)
  }

  function CallActions(s: SenderState, c: SenderCall): seq<SenderAction>
    requires c.CallAck? ==> c.through < U64
  {
    match c
    case CallOpen(from) => OpenActions(s, from)
    case CallAck(through) => AckActions(s, through)
    case CallRequest(from) => OpenActions(s, from)
    case CallPump => PumpActions(s)
  }

  function AfterCalls(s: SenderState, calls: seq<SenderCall>): SenderState
    requires InRange(calls)
  {
    if calls == [] then s
    else AfterCall(AfterCalls(s, calls[..|calls| - 1]), calls[|calls| - 1])
  }

  /** Everything the engine asked for, in order. */
  function Emitted(s: SenderState, calls: seq<SenderCall>): seq<SenderAction>
    requires InRange(calls)
  {
    if calls == [] then []
    else
      var init, last := calls[..|calls| - 1], calls[|calls| - 1];
      Emitted(s, init) + CallActions(AfterCalls(s, init), last)
  }

  /** Where a reader of the emitted actions stands: after the last chunk, or at the last announcement. */
  function Mark(actions: seq<SenderAction>): nat {
    if actions == [] then 0
    else
      match actions[|actions| - 1]
      case Chunk(index) => index + 1
      case Metadata(resumeFrom) => resumeFrom
      case End(_) => Mark(actions[..|actions| - 1])
  }

  /** Every chunk continues where the reader stands. */
  ghost predicate Unbroken(actions: seq<SenderAction>) {
    forall k :: 0 <= k < |actions| && actions[k].Chunk? ==> actions[k].index == Mark(actions[..k])
  }

  lemma UnbrokenMore(a: seq<SenderAction>, x: SenderAction)
    requires Unbroken(a) && (x.Chunk? ==> x.index == Mark(a))
    ensures Unbroken(a + [x])
    ensures Mark(a + [x]) == if x.Chunk? then x.index + 1 else if x.Metadata? then x.resumeFrom else Mark(a)
  {
    assert (a + [x])[..|a|] == a;
    hide Mark;
    assert forall k :: 0 <= k < |a| ==> (a + [x])[..k] == a[..k];
  }

  lemma {:induction false} ChunksContinue(a: seq<SenderAction>, lo: nat, hi: nat)
    requires Unbroken(a) && Mark(a) == lo <= hi
    ensures Unbroken(a + Chunks(lo, hi)) && Mark(a + Chunks(lo, hi)) == hi
    decreases hi
  {
    hide Mark, Unbroken;
    if lo == hi {
      assert a + Chunks(lo, hi) == a;
    } else {
      ChunksContinue(a, lo, hi - 1);
      UnbrokenMore(a + Chunks(lo, hi - 1), Chunk(hi - 1));
      assert a + Chunks(lo, hi - 1) + [Chunk(hi - 1)] == a + Chunks(lo, hi);
    }
  }

  lemma PumpContinues(a: seq<SenderAction>, s: SenderState)
    requires Unbroken(a) && Mark(a) == s.next
    ensures Unbroken(a + PumpActions(s)) && Mark(a + PumpActions(s)) == Pumped(s).next
  {
    hide Mark, Unbroken;
    var sent := a + Chunks(s.next, Filled(s));
    ChunksContinue(a, s.next, Filled(s));
    if Filled(s) >= s.total && !s.endSent {
      UnbrokenMore(sent, End(s.total));
      assert a + PumpActions(s) == sent + [End(s.total)];
    } else {
      assert a + PumpActions(s) == sent;
    }
  }

  lemma OpenContinues(a: seq<SenderAction>, s: SenderState, from: nat)
    requires Unbroken(a)
    ensures Unbroken(a + OpenActions(s, from)) && Mark(a + OpenActions(s, from)) == Opened(s, from).next
  {
    hide Mark, Unbroken, PumpActions, Pumped;
    UnbrokenMore(a, Metadata(from));
    PumpContinues(a + [Metadata(from)], Rewound(s, from));
    assert a + OpenActions(s, from) == a + [Metadata(from)] + PumpActions(Rewound(s, from));
  }

  /** Whatever calls a new engine gets, its cursor is where a reader of what it emitted stands, and every chunk it
      emitted continued from there: between two announcements no chunk is skipped or repeated. */
  lemma {:induction false} StreamIsUnbroken(total: nat, window: nat, calls: seq<SenderCall>)
    requires InRange(calls)
    ensures var a, t := Emitted(Fresh(total, window), calls), AfterCalls(Fresh(total, window), calls);
            Unbroken(a) && t.next == Mark(a)
  {
    if calls == [] {
    } else {
      var init, last := calls[..|calls| - 1], calls[|calls| - 1];
      var s, a := AfterCalls(Fresh(total, window), init), Emitted(Fresh(total, window), init);
      StreamIsUnbroken(total, window, init);
      hide Mark, Unbroken, PumpActions, Pumped;
      match last {
        case CallOpen(from) => OpenContinues(a, s, from);
        case CallAck(through) => PumpContinues(a, Acked(s, through));
        case CallRequest(from) => OpenContinues(a, s, from);
        case CallPump => PumpContinues(a, s);
      }
    }
  }

  /** The last action that is not an end marker is at `k`. */
  ghost predicate LastAt(a: seq<SenderAction>, k: nat) {
    k < |a| && !a[k].End? && forall j :: k < j < |a| ==> a[j].End?
  }

  /** So `sent_through` names the last chunk emitted, or the one before the last announcement if none came after it,
      or nothing if that is the beginning. */
  lemma SentThroughIsLastEmitted(total: nat, window: nat, calls: seq<SenderCall>, k: nat)
    requires InRange(calls) && LastAt(Emitted(Fresh(total, window), calls), k)
    ensures k < |Emitted(Fresh(total, window), calls)|
    ensures var last := Emitted(Fresh(total, window), calls)[k];
            !last.End? && SentThrough(AfterCalls(Fresh(total, window), calls))
                          == if last.Chunk? then Some(last.index)
                             else if last.resumeFrom == 0 then None else Some(last.resumeFrom - 1)
  {
    hide *;
    StreamIsUnbroken(total, window, calls);
    MarkSkipsEnds(Emitted(Fresh(total, window), calls), k);
    SentThroughIs(AfterCalls(Fresh(total, window), calls));
  }

  lemma SentThroughIs(s: SenderState)
    ensures SentThrough(s) == if s.next == 0 then None else Some(s.next - 1)
  {
  }

  lemma {:induction false} MarkSkipsEnds(a: seq<SenderAction>, k: nat)
    requires LastAt(a, k)
    ensures k < |a| && !a[k].End? && Mark(a) == if a[k].Chunk? then a[k].index + 1 else a[k].resumeFrom
  {
    if k == |a| - 1 {
    } else {
      MarkSkipsEnds(a[..|a| - 1], k);
    }
  }
}
