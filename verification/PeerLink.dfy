/** The peer's end of the relay (`RelayPeerLink` in src/main/net/relay-link.ts): one transport, and the handoff latch. */
module PeerLink {
  import opened Bytes
  import opened RelayWire
  import opened ClientWire
  import opened RelayRoom

  // ----- the handoff latch -----

  /** `waiter` is the installed callback; `fired` lists the callbacks called. */
  datatype Latch = Latch(waiter: Option<nat>, claimed: bool, fired: seq<nat>)

  datatype Signal = Claimed | Register(callback: nat)

  const NEW_LATCH := Latch(None, false, [])

  function Signalled(l: Latch, s: Signal): Latch {
    match s
    case Claimed => if l.waiter.Some? then l.(fired := l.fired + [l.waiter.value]) else l.(claimed := true)
    case Register(cb) =>
      if l.claimed then Latch(Some(cb), false, l.fired + [cb]) else l.(waiter := Some(cb))
  }

  function LatchRun(l: Latch, ss: seq<Signal>): Latch
    decreases |ss|
  {
    if ss == [] then l else LatchRun(Signalled(l, ss[0]), ss[1..])
  }

  /** Once a callback is there no claim is remembered. */
  ghost predicate LatchInv(l: Latch) { l.waiter.Some? ==> !l.claimed }

  /** A callback stays installed for good, and is there exactly when one was ever registered. */
  lemma {:induction false} RunKeepsLatch(l: Latch, ss: seq<Signal>)
    requires LatchInv(l)
    ensures LatchInv(LatchRun(l, ss))
    ensures LatchRun(l, ss).waiter.Some? <==> l.waiter.Some? || exists s | s in ss :: s.Register?
    decreases |ss|
  {
    if ss != [] {
      RunKeepsLatch(Signalled(l, ss[0]), ss[1..]);
      assert ss == [ss[0]] + ss[1..];
    }
  }

  lemma {:induction false} LatchRunConcat(l: Latch, a: seq<Signal>, b: seq<Signal>)
    ensures LatchRun(l, a + b) == LatchRun(LatchRun(l, a), b)
    decreases |a|
  {
    if a == [] {
      assert a + b == b;
    } else {
      assert (a + b)[0] == a[0] && (a + b)[1..] == a[1..] + b;
      LatchRunConcat(Signalled(l, a[0]), a[1..], b);
    }
  }

  lemma LatchRunPair(l: Latch, s: Signal, t: Signal)
    ensures LatchRun(l, [s, t]) == Signalled(Signalled(l, s), t)
  {
    assert [s, t][1..] == [t] && [t][1..] == [];
    assert LatchRun(Signalled(l, s), [t]) == LatchRun(Signalled(Signalled(l, s), t), []);
  }

  /** The first handoff: whichever of the claim and the registration comes first, the callback is called exactly once. */
  lemma FirstHandoffFiresOnce(cb: nat)
    ensures LatchRun(NEW_LATCH, [Claimed, Register(cb)]) == Latch(Some(cb), false, [cb])
    ensures LatchRun(NEW_LATCH, [Register(cb), Claimed]) == Latch(Some(cb), false, [cb])
  {
    LatchRunPair(NEW_LATCH, Claimed, Register(cb));
    LatchRunPair(NEW_LATCH, Register(cb), Claimed);
    assert [] + [cb] == [cb];
  }

  /**
   * After any past `ss` of claims and registrations, a registration followed by its claim is called, twice if an
   * unheard claim was waiting. The other way round, the new callback is called for its claim exactly when none was
   * ever registered; otherwise the claim goes to the one installed and the new one waits on.
   */
  lemma LaterHandoffs(ss: seq<Signal>, cb: nat)
    ensures var l := LatchRun(NEW_LATCH, ss);
            var r := LatchRun(NEW_LATCH, ss + [Register(cb), Claimed]);
            r.fired == l.fired + (if l.claimed then [cb, cb] else [cb]) && r.waiter == Some(cb)
    ensures var l := LatchRun(NEW_LATCH, ss);
            var r := LatchRun(NEW_LATCH, ss + [Claimed, Register(cb)]);
            if exists s | s in ss :: s.Register?
            then l.waiter.Some? && r.fired == l.fired + [l.waiter.value] && r.waiter == Some(cb) && !r.claimed
            else r.fired == l.fired + [cb] && r.waiter == Some(cb)
  {
    var l := LatchRun(NEW_LATCH, ss);
    RunKeepsLatch(NEW_LATCH, ss);
    LatchRunConcat(NEW_LATCH, ss, [Register(cb), Claimed]);
    LatchRunConcat(NEW_LATCH, ss, [Claimed, Register(cb)]);
    LatchRunPair(l, Register(cb), Claimed);
    LatchRunPair(l, Claimed, Register(cb));
    assert l.fired + [cb] + [cb] == l.fired + [cb, cb];
  }

  // ----- the link -----

  /** What became of `open`: still waiting for the relay's answer, or settled one way or the other, once. */
  datatype Opening = Dialling | Opened(connId: Option<nat>) | Refused(reason: Option<Reason>)

  /**
   * `heard` went to the installed message handler, `missed` counts what came before there was one; `minding` says
   * whether a close handler is installed and `reports` counts its calls.
   */
  datatype End = End(opening: Opening, closed: bool, listening: bool, minding: bool, heard: seq<Payload>, missed: nat, reports: nat, latch: Latch)

  datatype Event =
    | Frame(msg: Down)
    | Listen
    | Mind
    | HandoffReady(callback: nat)
    | CloseLink
    | SocketClosed
    | OpenTimesOut

  const NEW_END := End(Dialling, false, false, false, [], 0, 0, NEW_LATCH)

  function Settle(e: End, o: Opening): End { if e.opening.Dialling? then e.(opening := o) else e }

  function Fail(e: End): End {
    if e.closed then e else e.(closed := true, reports := e.reports + if e.minding then 1 else 0)
  }

  /** The payload a frame carries, tagged or not. */
  function Carries(m: Down): seq<Payload> {
    if m.Raw? && DecodeData(m.frame).Some? then [DecodeData(m.frame).value.payload] else []
  }

  function Step(e: End, ev: Event): End {
    match ev
    case Frame(Ready(connId)) => Settle(e, Opened(connId))
    case Frame(Reject(reason)) => Settle(e, Refused(Some(reason)))
    case Frame(Raw(frame)) =>
      var ps := Carries(Raw(frame));
      if e.listening then e.(heard := e.heard + ps) else e.(missed := e.missed + |ps|)
    case Frame(HostGone) => Fail(e)
    case Frame(HostClaimed) => e.(latch := Signalled(e.latch, Claimed))
    case Frame(_) => e
    case Listen => e.(listening := true)
    case Mind => e.(minding := true)
    case HandoffReady(cb) => e.(latch := Signalled(e.latch, Register(cb)))
    case CloseLink => e.(closed := true)
    case SocketClosed => Fail(Settle(e, Refused(None)))
    case OpenTimesOut => Settle(e, Refused(None))
  }

  function Run(e: End, evs: seq<Event>): End {
    if evs == [] then e else Step(Run(e, evs[..|evs| - 1]), evs[|evs| - 1])
  }

  /** The frames of a run, in order, and what they carry. */
  function Frames(evs: seq<Event>): seq<Down> {
    if evs == [] then []
    else if evs[|evs| - 1].Frame? then Frames(evs[..|evs| - 1]) + [evs[|evs| - 1].msg]
    else Frames(evs[..|evs| - 1])
  }

  function Payloads(ms: seq<Down>): seq<Payload> {
    if ms == [] then [] else Payloads(ms[..|ms| - 1]) + Carries(ms[|ms| - 1])
  }

  /** What the handler has heard is everything from the moment it was installed. */
  ghost predicate HeardFrom(e: End, ps: seq<Payload>) {
    && e.missed + |e.heard| == |ps| && e.heard == ps[e.missed..]
    && (!e.listening ==> e.heard == []) && e.reports <= (if e.closed then 1 else 0)
  }

  /** A data frame carries the payload it was made of; a message that is no data frame carries nothing. */
  lemma FrameCarries(p: Payload, m: Down)
    ensures Carries(Raw(DataToPeer(p))) == [p]
    ensures !m.Raw? || DecodeData(m.frame).None? ==> Carries(m) == []
  {
    assert DataToPeer(p)[2..] == p.bytes;
  }

  lemma FrameHeard(e: End, m: Down, ps: seq<Payload>)
    requires HeardFrom(e, ps)
    ensures HeardFrom(Step(e, Frame(m)), ps + Carries(m)) && Step(e, Frame(m)).listening == e.listening
  {
    hide Signalled;
    var more := Carries(m);
    assert (ps + more)[e.missed..] == ps[e.missed..] + more;
    assert (ps + more)[|ps + more|..] == [];
    assert m.Raw? || more == [];
    assert ps + [] == ps;
  }

  lemma OtherHeard(e: End, ev: Event, ps: seq<Payload>)
    requires HeardFrom(e, ps) && !ev.Frame?
    ensures HeardFrom(Step(e, ev), ps) && Step(e, ev).listening == (e.listening || ev.Listen?)
  {
    hide Signalled;
  }

  /**
   * Over any run, the handler hears every payload from the moment it is installed, in order, whatever else
   * happens to the link, its closing included; and the close is reported at most once.
   */
  lemma {:induction false} HeardFromListening(evs: seq<Event>)
    ensures HeardFrom(Run(NEW_END, evs), Payloads(Frames(evs)))
    ensures Run(NEW_END, evs).listening <==> Listen in evs
  {
    hide HeardFrom, Step, Carries;
    if evs == [] {
      NothingHeard();
    } else {
      var init, last := evs[..|evs| - 1], evs[|evs| - 1];
      assert evs == init + [last];
      HeardFromListening(init);
      if last.Frame? {
        var ms := Frames(init);
        assert (ms + [last.msg])[..|ms|] == ms;
        FrameHeard(Run(NEW_END, init), last.msg, Payloads(ms));
      } else {
        OtherHeard(Run(NEW_END, init), last, Payloads(Frames(init)));
      }
    }
  }

  lemma NothingHeard()
    ensures HeardFrom(NEW_END, [])
  {
  }

  // ----- how it opens, how it ends, and whom a handoff calls -----

  /** What an event answers to `open`, if anything. */
  function Verdict(ev: Event): Option<Opening> {
    match ev
    case Frame(Ready(connId)) => Some(Opened(connId))
    case Frame(Reject(reason)) => Some(Refused(Some(reason)))
    case SocketClosed => Some(Refused(None))
    case OpenTimesOut => Some(Refused(None))
    case _ => None
  }

  lemma StepOpens(e: End, ev: Event)
    ensures Step(e, ev).opening == if e.opening.Dialling? && Verdict(ev).Some? then Verdict(ev).value else e.opening
  {
    hide Signalled;
  }

  /** The first answer settles `open`, for good; without one it is still dialling. */
  lemma {:induction false} FirstVerdictSettles(evs: seq<Event>, k: nat)
    requires k <= |evs| && forall j | 0 <= j < k :: Verdict(evs[j]).None?
    requires k < |evs| ==> Verdict(evs[k]).Some?
    ensures Run(NEW_END, evs).opening == if k < |evs| then Verdict(evs[k]).value else Dialling
    decreases |evs|
  {
    hide Step;
    if evs != [] {
      var init, last := evs[..|evs| - 1], evs[|evs| - 1];
      StepOpens(Run(NEW_END, init), last);
      FirstVerdictSettles(init, if k < |evs| then k else k - 1);
    }
  }

  predicate Ends(ev: Event) { ev == Frame(HostGone) || ev == SocketClosed || ev == CloseLink }

  lemma StepEnds(e: End, ev: Event)
    ensures var r := Step(e, ev);
            && (r.closed <==> e.closed || Ends(ev)) && (r.minding <==> e.minding || ev == Mind)
            && r.reports == if !e.closed && Ends(ev) && ev != CloseLink && e.minding then e.reports + 1 else e.reports
  {
    hide Signalled;
  }

  /**
   * The link ends with the first HOST_GONE, end of the socket or own close; the close handler is called, once, if it
   * was there by then and the end was not the link's own.
   */
  lemma {:induction false} FirstEndReports(evs: seq<Event>, k: nat)
    requires k <= |evs| && (forall j | 0 <= j < k :: !Ends(evs[j])) && (k < |evs| ==> Ends(evs[k]))
    ensures var e := Run(NEW_END, evs);
            && (e.closed <==> k < |evs|) && (e.minding <==> Mind in evs)
            && e.reports == if k < |evs| && evs[k] != CloseLink && Mind in evs[..k] then 1 else 0
    decreases |evs|
  {
    hide Step;
    if evs != [] {
      var init, last := evs[..|evs| - 1], evs[|evs| - 1];
      assert evs == init + [last];
      StepEnds(Run(NEW_END, init), last);
      FirstEndReports(init, if k < |evs| then k else k - 1);
      if k < |init| { assert init[..k] == evs[..k]; }
      if k == |init| { assert evs[..k] == init; }
    }
  }

  /** The claims and registrations of a run. */
  function Signals(evs: seq<Event>): seq<Signal> {
    if evs == [] then []
    else
      var before, last := Signals(evs[..|evs| - 1]), evs[|evs| - 1];
      if last == Frame(HostClaimed) then before + [Claimed]
      else if last.HandoffReady? then before + [Register(last.callback)]
      else before
  }

  /** The link's handoff callbacks are those of its latch, fed the run's claims and registrations. */
  lemma {:induction false} LatchFollows(evs: seq<Event>)
    ensures Run(NEW_END, evs).latch == LatchRun(NEW_LATCH, Signals(evs))
    decreases |evs|
  {
    hide Signalled;
    if evs != [] {
      var init, last := evs[..|evs| - 1], evs[|evs| - 1];
      LatchFollows(init);
      var s := if last == Frame(HostClaimed) then [Claimed] else if last.HandoffReady? then [Register(last.callback)] else [];
      assert Signals(evs) == Signals(init) + s;
      LatchRunConcat(NEW_LATCH, Signals(init), s);
      if s != [] {
        assert s == [s[0]];
        LatchOne(Run(NEW_END, init).latch, s[0]);
      }
    }
  }

  lemma LatchOne(l: Latch, s: Signal)
    ensures LatchRun(l, [s]) == Signalled(l, s)
  {
    assert [s][1..] == [];
  }

  // ----- the mutable link -----

  class RelayPeerLink {
    var opening: Opening
    var closed: bool
    var listening: bool
    var minding: bool
    var heard: seq<Payload>
    var missed: nat
    var reports: nat
    var waiter: Option<nat>
    var claimed: bool
    var fired: seq<nat>

    function State(): End
      reads this
    {
      End(opening, closed, listening, minding, heard, missed, reports, Latch(waiter, claimed, fired))
    }

    constructor ()
      ensures State() == NEW_END
    {
      opening, closed, listening, minding := Dialling, false, false, false;
      heard, missed, reports, waiter, claimed, fired := [], 0, 0, None, false, [];
    }

    method OnFrame(msg: Down)
      modifies this
      ensures State() == Step(old(State()), Frame(msg))
    {
      match msg
      case Ready(connId) =>
        if opening.Dialling? { opening := Opened(connId); }
      case Reject(reason) =>
        if opening.Dialling? { opening := Refused(Some(reason)); }
      case Raw(frame) =>
        var d := DecodeData(frame);
        if d.None? { return; }
        if listening { heard := heard + [d.value.payload]; } else { missed := missed + 1; }
      case HostGone => FailLink();
      case HostClaimed =>
        if waiter.Some? { fired := fired + [waiter.value]; } else { claimed := true; }
      case _ =>
    }

    method OnMessage()
      modifies this
      ensures State() == Step(old(State()), Listen)
    {
      listening := true;
    }

    method OnClose()
      modifies this
      ensures State() == Step(old(State()), Mind)
    {
      minding := true;
    }

    method OnHandoffReady(callback: nat)
      modifies this
      ensures State() == Step(old(State()), HandoffReady(callback))
    {
      waiter := Some(callback);
      if claimed {
        claimed := false;
        fired := fired + [callback];
      }
    }

    method FailLink()
      modifies this`closed, this`reports
      ensures State() == Fail(old(State()))
    {
      if closed { return; }
      closed := true;
      if minding { reports := reports + 1; }
    }

    method OnSocketClosed()
      modifies this
      ensures State() == Step(old(State()), SocketClosed)
    {
      if opening.Dialling? { opening := Refused(None); }
      FailLink();
    }

    /** Closing it oneself reports nothing. */
    method Close()
      modifies this
      ensures State() == Step(old(State()), CloseLink)
    {
      if closed { return; }
      closed := true;
    }

    method Send(p: Payload) returns (frames: seq<Buffer>)
      ensures frames == if closed then [] else [EncodeDataP(p)]
    {
      if closed { return []; }
      return [EncodeDataP(p)];
    }
  }
}
