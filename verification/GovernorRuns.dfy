/** How often and how soon quality rises over whole runs of the media plane, pauses and departures included. */
module GovernorRuns {
  import opened Governors
  import opened MediaPlanes

  /** The verdicts of the windows in which this stream was evaluated. */
  function Windows(cfg: Config, p: Plane, acts: seq<Action>, id: string): seq<bool>
    decreases |acts|
  {
    if acts == [] then []
    else if acts[0].RunGovernor? && id in p.governor && Evaluated(p.governor[id])
    then [Bad(cfg, p.governor[id])] + Windows(cfg, Next(cfg, p, acts[0]), acts[1..], id)
    else Windows(cfg, Next(cfg, p, acts[0]), acts[1..], id)
  }

  /** The stream is published all along. */
  predicate StaysLive(cfg: Config, p: Plane, acts: seq<Action>, id: string)
    decreases |acts|
  {
    id in p.governor && (acts == [] || StaysLive(cfg, Next(cfg, p, acts[0]), acts[1..], id))
  }

  /** On how many steps of the run the stream's quality rises. */
  function RisesOf(cfg: Config, p: Plane, acts: seq<Action>, id: string): nat
    requires StaysLive(cfg, p, acts, id)
    decreases |acts|
  {
    if acts == [] then 0
    else
      var q := Next(cfg, p, acts[0]);
      assert StaysLive(cfg, q, acts[1..], id);
      (if q.governor[id].level < p.governor[id].level then 1 else 0) + RisesOf(cfg, q, acts[1..], id)
  }

  // ----- what one action does to a stream's gauge -----

  ghost predicate SameGauge(p: Plane, q: Plane, id: string) {
    id in q.governor ==> id in p.governor && GaugeOf(q.governor[id]) == GaugeOf(p.governor[id])
  }

  lemma DemandGauge(cfg: Config, p: Plane, x: string, id: string)
    ensures SameGauge(p, EmitDemand(cfg, p, x), id)
  {
    hide LevelDirective;
  }

  lemma {:induction false} DemandAllGauge(cfg: Config, p: Plane, ids: seq<string>, id: string)
    ensures SameGauge(p, DemandAll(cfg, p, ids), id)
    decreases |ids|
  {
    hide EmitDemand;
    if ids != [] {
      DemandGauge(cfg, p, ids[0], id);
      DemandAllGauge(cfg, EmitDemand(cfg, p, ids[0]), ids[1..], id);
    }
  }

  lemma {:induction false} EndAllGauge(cfg: Config, p: Plane, ids: seq<string>, id: string)
    ensures SameGauge(p, EndAll(cfg, p, ids), id)
    decreases |ids|
  {
    if ids != [] { EndAllGauge(cfg, End(cfg, p, ids[0]), ids[1..], id); }
  }

  /** Only an evaluated window moves a published stream's gauge, and by one tick. */
  lemma StepGauge(cfg: Config, p: Plane, a: Action, id: string)
    requires id in p.governor && id in Next(cfg, p, a).governor
    ensures GaugeOf(Next(cfg, p, a).governor[id])
            == if a.RunGovernor? && Evaluated(p.governor[id]) then Tick(cfg.recoveryWindows, GaugeOf(p.governor[id]), Bad(cfg, p.governor[id]))
               else GaugeOf(p.governor[id])
  {
    hide LevelDirective, Tick, Bad, EmitDemand, DemandAll, EndAll;
    match a
    case Subscribe(peer, x) => DemandGauge(cfg, WithSubs(p, p.router.subs + {(peer, x)}), x, id);
    case Unsubscribe(peer, x) => DemandGauge(cfg, WithSubs(p, p.router.subs - {(peer, x)}), x, id);
    case PeerGone(peer, owned, touched) =>
      var dropped := p.(governor := DropSubscriber(p.governor, peer));
      var q := EndAll(cfg, dropped, owned);
      EndAllGauge(cfg, dropped, owned, id);
      DemandAllGauge(cfg, WithSubs(q, set s | s in q.router.subs && s.0 != peer), touched, id);
    case RunGovernor => GaugeMovesByTicks(cfg, p.governor, id);
    case _ =>
  }

  /** Over a run on which a stream stays published, its gauge is its windows ticked off, and its rises are theirs. */
  lemma {:induction false} RunIsTicks(cfg: Config, p: Plane, acts: seq<Action>, id: string)
    requires StaysLive(cfg, p, acts, id)
    ensures id in Run(cfg, p, acts).governor
    ensures var g, ws := GaugeOf(p.governor[id]), Windows(cfg, p, acts, id);
            && GaugeOf(Run(cfg, p, acts).governor[id]) == Ticks(cfg.recoveryWindows, g, ws)
            && RisesOf(cfg, p, acts, id) == Rises(cfg.recoveryWindows, g, ws)
    decreases |acts|
  {
    hide Next, Tick, Bad, Evaluated;
    if acts != [] {
      var q := Next(cfg, p, acts[0]);
      StepGauge(cfg, p, acts[0], id);
      RunIsTicks(cfg, q, acts[1..], id);
      if acts[0].RunGovernor? && Evaluated(p.governor[id]) {
        TicksCons(cfg.recoveryWindows, GaugeOf(p.governor[id]), Bad(cfg, p.governor[id]), Windows(cfg, q, acts[1..], id));
      }
    }
  }

  // ----- every reachable gauge is sound -----

  ghost predicate AllSound(cfg: Config, p: Plane) { forall id | id in p.governor :: Sound(cfg.recoveryWindows, GaugeOf(p.governor[id])) }

  lemma NewGauge(cfg: Config, p: Plane, a: Action, id: string)
    requires id !in p.governor && id in Next(cfg, p, a).governor
    ensures GaugeOf(Next(cfg, p, a).governor[id]) == Gauge(0, 0)
  {
    hide LevelDirective, Tick, Bad, EmitDemand, DemandAll, EndAll;
    match a
    case Subscribe(peer, x) => DemandGauge(cfg, WithSubs(p, p.router.subs + {(peer, x)}), x, id);
    case Unsubscribe(peer, x) => DemandGauge(cfg, WithSubs(p, p.router.subs - {(peer, x)}), x, id);
    case PeerGone(peer, owned, touched) =>
      var dropped := p.(governor := DropSubscriber(p.governor, peer));
      var q := EndAll(cfg, dropped, owned);
      EndAllGauge(cfg, dropped, owned, id);
      DemandAllGauge(cfg, WithSubs(q, set s | s in q.router.subs && s.0 != peer), touched, id);
    case _ =>
  }

  lemma {:induction false} RunIsSound(cfg: Config, p: Plane, acts: seq<Action>)
    requires cfg.recoveryWindows >= 1 && AllSound(cfg, p)
    ensures AllSound(cfg, Run(cfg, p, acts))
    decreases |acts|
  {
    hide Next, Tick, Bad, Evaluated;
    if acts != [] {
      var q := Next(cfg, p, acts[0]);
      forall id | id in q.governor ensures Sound(cfg.recoveryWindows, GaugeOf(q.governor[id])) {
        if id in p.governor {
          StepGauge(cfg, p, acts[0], id);
          TickCosts(cfg.recoveryWindows, GaugeOf(p.governor[id]), Bad(cfg, p.governor[id]));
        } else {
          NewGauge(cfg, p, acts[0], id);
        }
      }
      RunIsSound(cfg, q, acts[1..]);
    }
  }

  // ----- the results -----

  /**
   * In any run of the media plane, pauses, samples, departures and other streams interleaved at will, a stream
   * that stays published rises at most once per recoveryWindows of its evaluated windows, counting the healthy
   * windows it had behind it at the start.
   */
  lemma RisesAreRareOnRuns(cfg: Config, past: seq<Action>, acts: seq<Action>, id: string)
    requires cfg.recoveryWindows >= 1 && StaysLive(cfg, Run(cfg, EMPTY_PLANE, past), acts, id)
    ensures var p := Run(cfg, EMPTY_PLANE, past);
            RisesOf(cfg, p, acts, id) <= (|Windows(cfg, p, acts, id)| + Spare(GaugeOf(p.governor[id]))) / cfg.recoveryWindows
  {
    var p := Run(cfg, EMPTY_PLANE, past);
    RunIsSound(cfg, EMPTY_PLANE, past);
    RunIsTicks(cfg, p, acts, id);
    RisesAreRare(cfg.recoveryWindows, GaugeOf(p.governor[id]), Windows(cfg, p, acts, id));
  }

  lemma JustPublished(cfg: Config, p: Plane, owner: string, id: string)
    requires Inv(cfg, p, {}) && id !in p.router.live
    ensures var q := Next(cfg, p, Publish(owner, id));
            id in q.governor && Spare(GaugeOf(q.governor[id])) == 0 && Sound(cfg.recoveryWindows, GaugeOf(q.governor[id]))
  {
    hide InStep, PausedUnwatched;
  }

  /** From its publication on, a stream's n evaluated windows hold at most n / recoveryWindows rises. */
  lemma RisesSincePublishing(cfg: Config, past: seq<Action>, owner: string, acts: seq<Action>, id: string)
    requires cfg.recoveryWindows >= 1 && id !in Run(cfg, EMPTY_PLANE, past).router.live
    requires StaysLive(cfg, Next(cfg, Run(cfg, EMPTY_PLANE, past), Publish(owner, id)), acts, id)
    ensures var p := Next(cfg, Run(cfg, EMPTY_PLANE, past), Publish(owner, id));
            RisesOf(cfg, p, acts, id) <= |Windows(cfg, p, acts, id)| / cfg.recoveryWindows
  {
    hide Next, Tick, Bad, Evaluated;
    var p := Next(cfg, Run(cfg, EMPTY_PLANE, past), Publish(owner, id));
    assert Inv(cfg, EMPTY_PLANE, {});
    RunKeeps(cfg, EMPTY_PLANE, past);
    JustPublished(cfg, Run(cfg, EMPTY_PLANE, past), owner, id);
    RunIsTicks(cfg, p, acts, id);
    RisesAreRare(cfg.recoveryWindows, GaugeOf(p.governor[id]), Windows(cfg, p, acts, id));
  }

  /** Once level * recoveryWindows of a published stream's windows in a row have been healthy, it is back at the top. */
  lemma RestoredOnRuns(cfg: Config, past: seq<Action>, acts: seq<Action>, id: string)
    requires cfg.recoveryWindows >= 1 && StaysLive(cfg, Run(cfg, EMPTY_PLANE, past), acts, id)
    requires var p := Run(cfg, EMPTY_PLANE, past);
             var ws := Windows(cfg, p, acts, id);
             (forall i | 0 <= i < |ws| :: !ws[i]) && |ws| >= p.governor[id].level * cfg.recoveryWindows
    ensures id in Run(cfg, Run(cfg, EMPTY_PLANE, past), acts).governor
    ensures Run(cfg, Run(cfg, EMPTY_PLANE, past), acts).governor[id].level == 0
  {
    var p := Run(cfg, EMPTY_PLANE, past);
    var ws := Windows(cfg, p, acts, id);
    RunIsSound(cfg, EMPTY_PLANE, past);
    RunIsTicks(cfg, p, acts, id);
    assert ws == Healthy(|ws|);
    RestoredInTime(cfg.recoveryWindows, GaugeOf(p.governor[id]), |ws|);
  }

  // ----- what samples do, on runs -----

  /** A loss over the threshold, reported about a watched stream, lowers it at the next evaluation, and its owner is told. */
  lemma LossIsAnswered(cfg: Config, past: seq<Action>, viewer: string, peer: string, id: string, loss: real)
    requires var p := Run(cfg, EMPTY_PLANE, past); id in p.router.live && (viewer, id) in p.router.subs
    requires loss > cfg.lossThreshold
    ensures var p := Run(cfg, EMPTY_PLANE, past);
            var q := Next(cfg, Next(cfg, p, ReportLoss(peer, id, loss)), RunGovernor);
            && id in p.governor && id in q.governor
            && q.governor[id].level == (if p.governor[id].level == 4 then 4 else p.governor[id].level + 1)
            && (p.governor[id].level < 4 ==>
                  id in q.last && q.last[id] == Sent(p.router.live[id], LevelDirective(cfg, p.governor[id].level + 1)))
  {
    hide LevelDirective, EvaluateOne;
    WatchedIsOn(cfg, past, viewer, id);
    var p := Run(cfg, EMPTY_PLANE, past);
    var s := Next(cfg, p, ReportLoss(peer, id, loss)).governor[id];
    assert peer in s.subs && s.subs[peer] == loss;
    StrainLowers(cfg, s);
    SitsOut(cfg, s);
  }

  /** So does a publisher's pressure at or over 1, once anybody has reported. */
  lemma PressureIsAnswered(cfg: Config, past: seq<Action>, viewer: string, id: string, cpu: real)
    requires var p := Run(cfg, EMPTY_PLANE, past); id in p.router.live && (viewer, id) in p.router.subs
    requires var p := Run(cfg, EMPTY_PLANE, past); id in p.governor && p.governor[id].subs != map[]
    requires cpu >= 1.0
    ensures var p := Run(cfg, EMPTY_PLANE, past);
            var q := Next(cfg, Next(cfg, p, ReportCpu(id, cpu)), RunGovernor);
            && id in q.governor
            && q.governor[id].level == (if p.governor[id].level == 4 then 4 else p.governor[id].level + 1)
            && (p.governor[id].level < 4 ==>
                  id in q.last && q.last[id] == Sent(p.router.live[id], LevelDirective(cfg, p.governor[id].level + 1)))
  {
    hide LevelDirective, EvaluateOne;
    WatchedIsOn(cfg, past, viewer, id);
    var s := Next(cfg, Run(cfg, EMPTY_PLANE, past), ReportCpu(id, cpu)).governor[id];
    StrainLowers(cfg, s);
    SitsOut(cfg, s);
  }

  lemma WatchedIsOn(cfg: Config, past: seq<Action>, viewer: string, id: string)
    requires var p := Run(cfg, EMPTY_PLANE, past); id in p.router.live && (viewer, id) in p.router.subs
    ensures var p := Run(cfg, EMPTY_PLANE, past);
            id in p.governor && !p.governor[id].paused && p.governor[id].owner == p.router.live[id] && p.governor[id].streamId == id
  {
    assert Inv(cfg, EMPTY_PLANE, {});
    RunKeeps(cfg, EMPTY_PLANE, past);
    assert (viewer, id) in Watching(Run(cfg, EMPTY_PLANE, past).router, id);
  }

  // ----- who is paused -----

  /** A departing peer's streams and subscriptions are listed in full. */
  ghost predicate Departs(p: Plane, a: Action) {
    a.PeerGone? ==> && (forall id :: id in a.owned <==> id in p.router.live && p.router.live[id] == a.peer)
                    && (forall id | id in a.touched :: (a.peer, id) in p.router.subs)
                    && (forall id | (a.peer, id) in p.router.subs && id in p.router.live && id !in a.owned :: id in a.touched)
  }

  ghost predicate AllDepart(cfg: Config, p: Plane, acts: seq<Action>)
    decreases |acts|
  {
    acts == [] || (Departs(p, acts[0]) && AllDepart(cfg, Next(cfg, p, acts[0]), acts[1..]))
  }

  ghost predicate UnwatchedIsPaused(p: Plane, id: string) {
    id in p.governor && Watching(p.router, id) == {} ==> p.governor[id].paused
  }

  lemma DemandOne(cfg: Config, p: Plane, x: string, id: string)
    requires Registered(p) && id in p.governor
    ensures var q := EmitDemand(cfg, p, x);
            && q.router == p.router && q.governor.Keys == p.governor.Keys && Registered(q)
            && q.governor[id] == (if x == id then p.governor[id].(paused := Watching(p.router, id) == {}) else p.governor[id])
  {
    hide LevelDirective;
  }

  lemma {:induction false} DemandAllPauses(cfg: Config, p: Plane, ids: seq<string>, id: string)
    requires Registered(p) && id in p.governor
    ensures var q := DemandAll(cfg, p, ids);
            && q.router == p.router && q.governor.Keys == p.governor.Keys
            && q.governor[id] == (if id in ids then p.governor[id].(paused := Watching(p.router, id) == {}) else p.governor[id])
    decreases |ids|
  {
    hide EmitDemand, Registered;
    if ids != [] {
      DemandOne(cfg, p, ids[0], id);
      DemandAllPauses(cfg, EmitDemand(cfg, p, ids[0]), ids[1..], id);
    }
  }

  lemma {:induction false} EndAllSpares(cfg: Config, p: Plane, ids: seq<string>, id: string)
    requires Registered(p) && id in p.governor
    ensures var q := EndAll(cfg, p, ids);
            && Registered(q) && (id in q.governor <==> id !in ids)
            && (id in q.governor ==> q.governor[id] == p.governor[id] && Watching(q.router, id) == Watching(p.router, id))
            && q.router.subs <= p.router.subs && forall x | x in q.router.live :: x in p.router.live && q.router.live[x] == p.router.live[x]
    decreases |ids|
  {
    if ids != [] {
      var q := End(cfg, p, ids[0]);
      assert Registered(q) && forall x | x in q.router.live :: x in p.router.live && q.router.live[x] == p.router.live[x];
      if ids[0] == id {
        EndedStaysOut(cfg, q, ids[1..], id);
      } else {
        assert Watching(q.router, id) == Watching(p.router, id);
        EndAllSpares(cfg, q, ids[1..], id);
      }
    }
  }

  lemma {:induction false} EndedStaysOut(cfg: Config, p: Plane, ids: seq<string>, id: string)
    requires Registered(p) && id !in p.governor
    ensures var q := EndAll(cfg, p, ids);
            && Registered(q) && id !in q.governor && q.router.subs <= p.router.subs
            && forall x | x in q.router.live :: x in p.router.live && q.router.live[x] == p.router.live[x]
    decreases |ids|
  {
    if ids != [] { EndedStaysOut(cfg, End(cfg, p, ids[0]), ids[1..], id); }
  }

  /** The two halves of a departure: the streams it ends, and the demand it takes away. */
  function Ended(cfg: Config, p: Plane, a: Action): Plane
    requires a.PeerGone?
  {
    EndAll(cfg, p.(governor := DropSubscriber(p.governor, a.peer)), a.owned)
  }

  lemma EndedKeeps(cfg: Config, p: Plane, a: Action, id: string)
    requires Registered(p) && a.PeerGone? && id in p.governor
    ensures var q := Ended(cfg, p, a);
            && Registered(q) && (id in q.governor <==> id !in a.owned)
            && (id in q.governor ==>
                  q.governor[id] == p.governor[id].(subs := p.governor[id].subs - {a.peer}) && Watching(q.router, id) == Watching(p.router, id))
  {
    hide EndAll;
    var dropped := p.(governor := DropSubscriber(p.governor, a.peer));
    assert Registered(dropped);
    EndAllSpares(cfg, dropped, a.owned, id);
  }

  function WithoutPeer(subs: set<(string, string)>, peer: string): set<(string, string)> { set s | s in subs && s.0 != peer }

  lemma WatchersLeft(r: Router, peer: string, id: string)
    ensures Watching(r.(subs := WithoutPeer(r.subs, peer)), id) == Watching(r, id) - {(peer, id)}
  {
  }

  /** A departing peer takes its streams, its subscriptions and its samples along, and whom it was the last to watch is paused. */
  lemma DepartureLeaves(cfg: Config, p: Plane, a: Action, id: string)
    requires Registered(p) && a.PeerGone? && Departs(p, a) && id in p.governor
    ensures var q := Next(cfg, p, a);
            && (id in q.governor <==> p.router.live[id] != a.peer)
            && (id in q.governor ==>
                  && Watching(q.router, id) == Watching(p.router, id) - {(a.peer, id)}
                  && a.peer !in q.governor[id].subs
                  && q.governor[id].paused == if (a.peer, id) in p.router.subs then Watching(q.router, id) == {} else p.governor[id].paused)
  {
    hide EmitDemand, End, DemandAll, EndAll, Registered, Ended, Watching, WithSubs;
    EndedKeeps(cfg, p, a, id);
    var q := Ended(cfg, p, a);
    var left := WithSubs(q, WithoutPeer(q.router.subs, a.peer));
    NextIsHalves(cfg, p, a);
    LeftIs(q, a.peer, id);
    assert id in p.router.live by { KeysOf(p); }
    DemandKeepsKeys(cfg, left, a.touched);
    if id in q.governor {
      DemandAllPauses(cfg, left, a.touched, id);
    }
  }

  lemma KeysOf(p: Plane)
    requires Registered(p)
    ensures p.governor.Keys == p.router.live.Keys
  {
  }

  lemma NextIsHalves(cfg: Config, p: Plane, a: Action)
    requires a.PeerGone?
    ensures var q := Ended(cfg, p, a); Next(cfg, p, a) == DemandAll(cfg, WithSubs(q, WithoutPeer(q.router.subs, a.peer)), a.touched)
  {
    hide EndAll, DemandAll, DropSubscriber;
    var q := Ended(cfg, p, a);
    assert WithoutPeer(q.router.subs, a.peer) == set s | s in q.router.subs && s.0 != a.peer;
  }

  lemma LeftIs(q: Plane, peer: string, id: string)
    requires Registered(q)
    ensures var left := WithSubs(q, WithoutPeer(q.router.subs, peer));
            Registered(left) && left.governor == q.governor && Watching(left.router, id) == Watching(q.router, id) - {(peer, id)}
  {
    WatchersLeft(q.router, peer, id);
  }

  lemma {:induction false} DemandKeepsKeys(cfg: Config, p: Plane, ids: seq<string>)
    ensures DemandAll(cfg, p, ids).governor.Keys == p.governor.Keys && DemandAll(cfg, p, ids).router == p.router
    decreases |ids|
  {
    if ids != [] { DemandKeepsKeys(cfg, EmitDemand(cfg, p, ids[0]), ids[1..]); }
  }

  lemma EndOne(cfg: Config, p: Plane, id: string)
    ensures EndAll(cfg, p, [id]) == End(cfg, p, id)
  {
    hide End;
    assert [id][1..] == [];
    assert EndAll(cfg, End(cfg, p, id), []) == End(cfg, p, id);
  }

  lemma StepPauses(cfg: Config, p: Plane, a: Action, id: string)
    requires Inv(cfg, p, {}) && Departs(p, a) && UnwatchedIsPaused(p, id) && id in p.governor && id in Next(cfg, p, a).governor
    ensures UnwatchedIsPaused(Next(cfg, p, a), id)
  {
    hide LevelDirective, EvaluateOne, EmitDemand, End, DemandAll, EndAll, InStep;
    match a
    case Subscribe(peer, x) =>
      var q := WithSubs(p, p.router.subs + {(peer, x)});
      DemandOne(cfg, q, x, id);
      assert Watching(p.router, id) <= Watching(q.router, id);
    case Unsubscribe(peer, x) =>
      var q := WithSubs(p, p.router.subs - {(peer, x)});
      DemandOne(cfg, q, x, id);
      if x != id { assert Watching(q.router, id) == Watching(p.router, id); }
    case PeerGone(peer, owned, touched) =>
      DepartureLeaves(cfg, p, a, id);
      if (peer, id) !in p.router.subs { assert Watching(p.router, id) - {(peer, id)} == Watching(p.router, id); }
    case Unpublish(x) =>
      EndAllSpares(cfg, p, [x], id);
      EndOne(cfg, p, x);
    case RunGovernor => SitsOut(cfg, p.governor[id]);
    case _ =>
  }

  lemma {:induction false} RunPauses(cfg: Config, p: Plane, acts: seq<Action>, id: string)
    requires Inv(cfg, p, {}) && StaysLive(cfg, p, acts, id) && AllDepart(cfg, p, acts) && UnwatchedIsPaused(p, id)
    ensures var q := Run(cfg, p, acts); Inv(cfg, q, {}) && id in q.governor && UnwatchedIsPaused(q, id)
    decreases |acts|
  {
    hide Inv, Next, Departs, UnwatchedIsPaused;
    if acts != [] {
      NextKeeps(cfg, p, acts[0]);
      assert id in Next(cfg, p, acts[0]).governor;
      StepPauses(cfg, p, acts[0], id);
      RunPauses(cfg, Next(cfg, p, acts[0]), acts[1..], id);
    }
  }

  /**
   * From the first time somebody watches a stream on, it is paused exactly while nobody does, and its owner has then
   * last been told to send nothing.
   */
  lemma PausedExactlyWhenUnwatched(cfg: Config, past: seq<Action>, viewer: string, acts: seq<Action>, id: string)
    requires var p := Run(cfg, EMPTY_PLANE, past); (viewer, id) in p.router.subs && StaysLive(cfg, p, acts, id) && AllDepart(cfg, p, acts)
    ensures var q := Run(cfg, Run(cfg, EMPTY_PLANE, past), acts);
            && id in q.governor && id in q.router.live
            && (q.governor[id].paused <==> forall peer :: (peer, id) !in q.router.subs)
            && (q.governor[id].paused ==> id in q.last && q.last[id] == Sent(q.router.live[id], Directive(0, 0, 1.0)))
  {
    hide Next, StaysLive, AllDepart;
    var p := Run(cfg, EMPTY_PLANE, past);
    assert Inv(cfg, EMPTY_PLANE, {});
    RunKeeps(cfg, EMPTY_PLANE, past);
    assert (viewer, id) in Watching(p.router, id);
    RunPauses(cfg, p, acts, id);
    hide Run;
    var r := Run(cfg, p, acts).router;
    assert forall peer | (peer, id) in r.subs :: (peer, id) in Watching(r, id);
    assert forall s | s in Watching(r, id) :: (s.0, id) in r.subs;
  }
}
