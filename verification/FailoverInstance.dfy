/** One failover instance as events reach it: probes and timers, host loss, graceful transfer, cancellation. */
module FailoverInstances {
  import opened Bytes
  import opened Rosters
  import opened Failovers

  /** Where the asynchronous loop is suspended. */
  datatype Pc = Idle | AwaitProbe(i: nat) | AwaitTurn(i: nat) | Over

  datatype Instance = Instance(pc: Pc, running: bool, done: bool, roster: seq<Entry>, order: seq<string>, emitted: seq<Action>)

  datatype Event =
    | HostLost(roster: seq<Entry>)
    | ProbeReturns(probe: Probe)
    | TimerFires
    | GracefulTransfer(successor: string, epoch: nat, roster: seq<Entry>)
    | Cancel

  const NEW_INSTANCE := Instance(Idle, false, false, [], [], [])

  predicate Placed(s: Instance) {
    && (s.pc.AwaitProbe? ==> s.pc.i < |s.order| && EndpointOf(s.roster, s.order[s.pc.i]).Some?)
    && (s.pc.AwaitTurn? ==> s.pc.i < |s.order|)
  }

  function EmitOnce(s: Instance, a: Action): Instance {
    if s.done then s else s.(done := true, running := false, emitted := s.emitted + [a])
  }

  /** The loop from place i to its next suspension. */
  function Walk(cfg: Config, s: Instance, i: nat): (r: Instance)
    requires i <= |s.order|
    ensures Placed(r) && r.order == s.order && r.roster == s.roster
    decreases |s.order| - i
  {
    if s.done then s.(pc := Over)
    else if i == |s.order| then EmitOnce(s.(pc := Over), RoomDead)
    else if s.order[i] == cfg.self then
      if !Verified(s.roster, cfg.self) then Walk(cfg, s, i + 1)
      else if i > 0 then s.(pc := AwaitTurn(i))
      else EmitOnce(s.(pc := Over), Promote(cfg.epoch + 1))
    else if EndpointOf(s.roster, s.order[i]).None? then Walk(cfg, s, i + 1)
    else s.(pc := AwaitProbe(i))
  }

  function Handed(cfg: Config, successor: string, epoch: nat, roster: seq<Entry>): Action {
    if successor == cfg.self then Promote(epoch)
    else
      var endpoint := EndpointOf(roster, successor);
      if endpoint.Some? then ConnectHeir(successor, endpoint.value, epoch) else RoomDead
  }

  function Step(cfg: Config, s: Instance, ev: Event): (r: Instance)
    requires Placed(s)
    ensures Placed(r)
  {
    match ev
    case HostLost(roster) =>
      if s.running || s.done then s
      else Walk(cfg, s.(running := true, roster := roster, order := Order(roster)), 0)
    case ProbeReturns(probe) =>
      if !s.pc.AwaitProbe? then s
      else if probe.Unreachable? then Walk(cfg, s, s.pc.i + 1)
      else if s.done then s.(pc := Over)
      else
        var id := s.order[s.pc.i];
        EmitOnce(s.(pc := Over), Heed(cfg, id, EndpointOf(s.roster, id).value, probe.epoch, probe.hostAlive))
    case TimerFires =>
      if !s.pc.AwaitTurn? then s
      else if s.done then s.(pc := Over)
      else EmitOnce(s.(pc := Over), Promote(cfg.epoch + 1))
    case GracefulTransfer(successor, epoch, roster) =>
      if s.done then s
      else s.(done := true, running := false, emitted := s.emitted + [Handed(cfg, successor, epoch, roster)])
    case Cancel => s.(done := true, running := false)
  }

  function RunEvents(cfg: Config, s: Instance, evs: seq<Event>): Instance
    requires Placed(s)
    decreases |evs|
  {
    if evs == [] then s else RunEvents(cfg, Step(cfg, s, evs[0]), evs[1..])
  }

  // ----- at most one action -----

  /** Nothing has been said, or one thing has and the instance is finished; the loop runs only while `running`. */
  ghost predicate Quiet(s: Instance) {
    |s.emitted| <= (if s.done then 1 else 0) && (s.done || s.running || s.pc == Idle)
  }

  lemma {:induction false} WalkIsQuiet(cfg: Config, s: Instance, i: nat)
    requires i <= |s.order| && Quiet(s) && (s.done || s.running)
    ensures var r := Walk(cfg, s, i);
            Quiet(r) && (s.done ==> r.emitted == s.emitted && r.done) && |s.emitted| <= |r.emitted| <= |s.emitted| + 1
    decreases |s.order| - i
  {
    if !s.done && i < |s.order| { WalkIsQuiet(cfg, s, i + 1); }
  }

  lemma StepIsQuiet(cfg: Config, s: Instance, ev: Event)
    requires Placed(s) && Quiet(s)
    ensures var r := Step(cfg, s, ev); Quiet(r) && (s.done ==> r.done && r.emitted == s.emitted)
  {
    match ev
    case HostLost(roster) =>
      if !s.running && !s.done { WalkIsQuiet(cfg, s.(running := true, roster := roster, order := Order(roster)), 0); }
    case ProbeReturns(probe) =>
      if s.pc.AwaitProbe? { WalkIsQuiet(cfg, s, s.pc.i + 1); }
    case _ =>
  }

  /** However events interleave, an instance emits at most one action, and nothing after it has finished. */
  lemma {:induction false} AtMostOneAction(cfg: Config, s: Instance, evs: seq<Event>)
    requires Placed(s) && Quiet(s)
    ensures var r := RunEvents(cfg, s, evs); |r.emitted| <= 1 && (s.done ==> r.emitted == s.emitted)
    decreases |evs|
  {
    if evs != [] {
      StepIsQuiet(cfg, s, evs[0]);
      AtMostOneAction(cfg, Step(cfg, s, evs[0]), evs[1..]);
    }
  }

  // ----- left alone, it does what the loop decides -----

  /** The next thing an uninterrupted instance hears. */
  function Answer(s: Instance, oracle: string -> Probe): Event
    requires Placed(s) && (s.pc.AwaitProbe? || s.pc.AwaitTurn?)
  {
    if s.pc.AwaitProbe? then ProbeReturns(oracle(s.order[s.pc.i])) else TimerFires
  }

  /** Finished having said what place i decides, or suspended at a later place that decides the same. */
  ghost predicate OnCourse(cfg: Config, s: Instance, oracle: string -> Probe, verdict: Action, from: nat) {
    && Placed(s)
    && (s.done ==> s.emitted == [verdict] && s.pc == Over)
    && (!s.done ==>
          && s.emitted == [] && s.running && (s.pc.AwaitProbe? || s.pc.AwaitTurn?) && from <= s.pc.i < |s.order|
          && (s.pc.AwaitProbe? ==> s.order[s.pc.i] != cfg.self)
          && (s.pc.AwaitTurn? ==> s.order[s.pc.i] == cfg.self && Verified(s.roster, cfg.self))
          && Decide(cfg, s.roster, s.order, oracle, s.pc.i) == verdict)
  }

  lemma {:induction false} WalkStaysOnCourse(cfg: Config, s: Instance, oracle: string -> Probe, i: nat)
    requires i <= |s.order| && !s.done && s.running && s.emitted == []
    ensures OnCourse(cfg, Walk(cfg, s, i), oracle, Decide(cfg, s.roster, s.order, oracle, i), i)
    decreases |s.order| - i
  {
    if i < |s.order| { WalkStaysOnCourse(cfg, s, oracle, i + 1); }
  }

  lemma AnswerStaysOnCourse(cfg: Config, s: Instance, oracle: string -> Probe, verdict: Action)
    requires OnCourse(cfg, s, oracle, verdict, 0) && !s.done
    ensures OnCourse(cfg, Step(cfg, s, Answer(s, oracle)), oracle, verdict, s.pc.i + 1)
    ensures Step(cfg, s, Answer(s, oracle)).order == s.order
  {
    WalkStaysOnCourse(cfg, s, oracle, s.pc.i + 1);
  }

  /** The event answers what the instance waits for. */
  predicate Answers(s: Instance, ev: Event) {
    (s.pc.AwaitProbe? && ev.ProbeReturns?) || (s.pc.AwaitTurn? && ev.TimerFires?)
  }

  /** Nothing interferes, and every probe waited for brings back what the oracle says of the candidate. */
  predicate Truthful(cfg: Config, s: Instance, evs: seq<Event>, oracle: string -> Probe)
    requires Placed(s)
    decreases |evs|
  {
    evs == [] ||
    (!evs[0].GracefulTransfer? && !evs[0].Cancel?
     && (s.pc.AwaitProbe? && evs[0].ProbeReturns? ==> evs[0].probe == oracle(s.order[s.pc.i]))
     && Truthful(cfg, Step(cfg, s, evs[0]), evs[1..], oracle))
  }

  function AnswerCount(cfg: Config, s: Instance, evs: seq<Event>): nat
    requires Placed(s)
    decreases |evs|
  {
    if evs == [] then 0 else (if Answers(s, evs[0]) then 1 else 0) + AnswerCount(cfg, Step(cfg, s, evs[0]), evs[1..])
  }

  lemma StepStaysOnCourse(cfg: Config, s: Instance, ev: Event, oracle: string -> Probe, verdict: Action, from: nat)
    requires OnCourse(cfg, s, oracle, verdict, from) && !ev.GracefulTransfer? && !ev.Cancel?
    requires s.pc.AwaitProbe? && ev.ProbeReturns? ==> ev.probe == oracle(s.order[s.pc.i])
    ensures OnCourse(cfg, Step(cfg, s, ev), oracle, verdict, if Answers(s, ev) then from + 1 else from)
    ensures Step(cfg, s, ev).order == s.order
  {
    hide Decide;
    if !s.done && Answers(s, ev) {
      assert ev == Answer(s, oracle);
      AnswerStaysOnCourse(cfg, s, oracle, verdict);
    }
  }

  lemma {:induction false} EveryScheduleStaysOnCourse(cfg: Config, s: Instance, evs: seq<Event>, oracle: string -> Probe, verdict: Action, from: nat)
    requires OnCourse(cfg, s, oracle, verdict, from) && Truthful(cfg, s, evs, oracle)
    ensures OnCourse(cfg, RunEvents(cfg, s, evs), oracle, verdict, from + AnswerCount(cfg, s, evs))
    ensures RunEvents(cfg, s, evs).order == s.order
    decreases |evs|
  {
    if evs != [] {
      OnCourseIsPlaced(cfg, s, oracle, verdict, from);
      hide OnCourse, Step;
      StepStaysOnCourse(cfg, s, evs[0], oracle, verdict, from);
      EveryScheduleStaysOnCourse(cfg, Step(cfg, s, evs[0]), evs[1..], oracle, verdict, if Answers(s, evs[0]) then from + 1 else from);
    }
  }

  lemma OnCourseIsPlaced(cfg: Config, s: Instance, oracle: string -> Probe, verdict: Action, from: nat)
    requires OnCourse(cfg, s, oracle, verdict, from)
    ensures Placed(s)
  {
  }

  /**
   * On every schedule without interference, however many stray timers, late probes and repeated losses are mixed
   * in: an instance that lost its host says nothing, or exactly what the loop decides; and it has said it once it
   * has been answered as often as there are candidates.
   */
  lemma HostLossReachesTheOutcome(cfg: Config, roster: seq<Entry>, oracle: string -> Probe, evs: seq<Event>)
    requires Truthful(cfg, Step(cfg, NEW_INSTANCE, HostLost(roster)), evs, oracle)
    ensures var lost := Step(cfg, NEW_INSTANCE, HostLost(roster));
            var r := RunEvents(cfg, lost, evs);
            && r.emitted == (if r.done then [Outcome(cfg, roster, oracle)] else [])
            && (AnswerCount(cfg, lost, evs) >= |Order(roster)| ==> r.done)
  {
    hide Order, Decide;
    var started := NEW_INSTANCE.(running := true, roster := roster, order := Order(roster));
    var lost := Step(cfg, NEW_INSTANCE, HostLost(roster));
    WalkStaysOnCourse(cfg, started, oracle, 0);
    EveryScheduleStaysOnCourse(cfg, lost, evs, oracle, Outcome(cfg, roster, oracle), 0);
  }

  // ----- higher-ranked peers act first -----

  lemma {:induction false} WalkAwaitsItsTurn(cfg: Config, s: Instance, i: nat)
    requires 0 < i <= |s.order| && !s.done && s.emitted == []
    ensures var r := Walk(cfg, s, i); r.emitted == [] || r.emitted == [RoomDead]
    decreases |s.order| - i
  {
    if i < |s.order| { WalkAwaitsItsTurn(cfg, s, i + 1); }
  }

  /**
   * A peer that is first in line and verified promotes itself as soon as the host is lost; any other waits for its
   * turn's timer before it does, whatever it hears.
   */
  lemma OnlyTheFirstActsAtOnce(cfg: Config, s: Instance, ev: Event)
    requires Placed(s) && !s.done && s.emitted == []
    ensures ev.HostLost? && !s.running && Order(ev.roster) != [] && Order(ev.roster)[0] == cfg.self && Verified(ev.roster, cfg.self) ==>
              Step(cfg, s, ev).emitted == [Promote(cfg.epoch + 1)]
    ensures var r := Step(cfg, s, ev);
            r.emitted != [] && r.emitted[0].Promote? ==>
              ev.TimerFires? || ev.GracefulTransfer? || (ev.HostLost? && r.order != [] && r.order[0] == cfg.self)
  {
    match ev
    case HostLost(roster) =>
      var started := s.(running := true, roster := roster, order := Order(roster));
      if !s.running && started.order != [] { WalkAwaitsItsTurn(cfg, started, 1); }
    case ProbeReturns(probe) => if s.pc.AwaitProbe? { WalkAwaitsItsTurn(cfg, s, s.pc.i + 1); }
    case _ =>
  }

  // ----- a graceful transfer, and being called off -----

  /**
   * Handed the room by name, an unfinished instance says at once what the name means to it, wherever its own loop is,
   * and finishes: promote if named itself, go to the named peer's endpoint, or give up without one.
   */
  lemma GracefulTransferDecides(cfg: Config, s: Instance, successor: string, epoch: nat, roster: seq<Entry>, evs: seq<Event>)
    requires Placed(s) && Quiet(s) && !s.done && DistinctPeers(roster)
    ensures var r := RunEvents(cfg, Step(cfg, s, GracefulTransfer(successor, epoch, roster)), evs);
            && r.done
            && (successor == cfg.self ==> r.emitted == [Promote(epoch)])
            && (successor != cfg.self ==>
                  && (forall e | e in roster && e.peerId == successor && e.inboundEndpoint.Some? ::
                        r.emitted == [ConnectHeir(successor, e.inboundEndpoint.value, epoch)])
                  && ((forall e | e in roster && e.peerId == successor :: e.inboundEndpoint.None?) ==> r.emitted == [RoomDead]))
  {
    var handed := Step(cfg, s, GracefulTransfer(successor, epoch, roster));
    StepIsQuiet(cfg, s, GracefulTransfer(successor, epoch, roster));
    DoneStays(cfg, handed, evs);
    forall e | e in roster && e.peerId == successor ensures Get(roster, successor) == Some(e) { EntryOf(roster, e); }
  }

  lemma {:induction false} DoneStays(cfg: Config, s: Instance, evs: seq<Event>)
    requires Placed(s) && Quiet(s) && s.done
    ensures RunEvents(cfg, s, evs).done && RunEvents(cfg, s, evs).emitted == s.emitted
    decreases |evs|
  {
    hide Step;
    if evs != [] {
      StepIsQuiet(cfg, s, evs[0]);
      DoneStays(cfg, Step(cfg, s, evs[0]), evs[1..]);
    }
  }

  /** Called off before it has said anything, an instance never says anything. */
  lemma CancelSilences(cfg: Config, s: Instance, evs: seq<Event>)
    requires Placed(s) && Quiet(s) && !s.done
    ensures RunEvents(cfg, Step(cfg, s, Cancel), evs).emitted == []
  {
    StepIsQuiet(cfg, s, Cancel);
    DoneStays(cfg, Step(cfg, s, Cancel), evs);
  }

  // ----- the mutable instance -----

  class Failover {
    const cfg: Config
    var pc: Pc
    var running: bool
    var done: bool
    var roster: seq<Entry>
    var order: seq<string>
    var emitted: seq<Action>

    function State(): Instance
      reads this
    {
      Instance(pc, running, done, roster, order, emitted)
    }

    constructor (cfg: Config)
      ensures this.cfg == cfg && State() == NEW_INSTANCE
    {
      this.cfg := cfg;
      pc, running, done, roster, order, emitted := Idle, false, false, [], [], [];
    }

    method Emit(action: Action)
      modifies this
      ensures State() == EmitOnce(old(State()), action)
    {
      if done { return; }
      done, running := true, false;
      emitted := emitted + [action];
    }

    method Loop(start: nat)
      requires start <= |order|
      modifies this
      ensures State() == Walk(cfg, old(State()), start)
    {
      var i := start;
      while i < |order| && !done
        invariant start <= i <= |order| && State() == old(State())
        invariant Walk(cfg, State(), i) == Walk(cfg, old(State()), start)
      {
        var candidate := order[i];
        if candidate == cfg.self {
          if !Verified(roster, candidate) {
            i := i + 1;
            continue;
          }
          if i > 0 {
            pc := AwaitTurn(i);
            return;
          }
          pc := Over;
          Emit(Promote(cfg.epoch + 1));
          return;
        }
        if EndpointOf(roster, candidate).None? {
          i := i + 1;
          continue;
        }
        pc := AwaitProbe(i);
        return;
      }
      pc := Over;
      if !done { Emit(RoomDead); }
    }

    method OnHostLost(now: seq<Entry>)
      requires Placed(State())
      modifies this
      ensures State() == Step(cfg, old(State()), HostLost(now))
    {
      if running || done { return; }
      running, roster, order := true, now, Order(now);
      Loop(0);
    }

    method OnProbe(probe: Probe)
      requires Placed(State())
      modifies this
      ensures State() == Step(cfg, old(State()), ProbeReturns(probe))
    {
      if !pc.AwaitProbe? { return; }
      if probe.Unreachable? {
        Loop(pc.i + 1);
        return;
      }
      var id := order[pc.i];
      pc := Over;
      if done { return; }
      if probe.hostAlive && probe.epoch <= cfg.epoch {
        Emit(ReconnectCurrent);
        return;
      }
      Emit(ConnectHeir(id, EndpointOf(roster, id).value, Max(cfg.epoch + 1, probe.epoch)));
    }

    method OnTimer()
      requires Placed(State())
      modifies this
      ensures State() == Step(cfg, old(State()), TimerFires)
    {
      if !pc.AwaitTurn? { return; }
      pc := Over;
      if done { return; }
      Emit(Promote(cfg.epoch + 1));
    }

    method OnGracefulTransfer(successor: string, epoch: nat, now: seq<Entry>)
      requires Placed(State())
      modifies this
      ensures State() == Step(cfg, old(State()), GracefulTransfer(successor, epoch, now))
    {
      if done { return; }
      Finish();
      if successor == cfg.self {
        emitted := emitted + [Promote(epoch)];
        return;
      }
      var endpoint := EndpointOf(now, successor);
      if endpoint.Some? {
        emitted := emitted + [ConnectHeir(successor, endpoint.value, epoch)];
      } else {
        emitted := emitted + [RoomDead];
      }
    }

    method Finish()
      modifies this`done, this`running
      ensures done && !running
    {
      done, running := true, false;
    }

    method CancelRun()
      requires Placed(State())
      modifies this
      ensures State() == Step(cfg, old(State()), Cancel)
    {
      Finish();
    }
  }
}
