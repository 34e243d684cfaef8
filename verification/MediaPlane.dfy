/**
 * The wiring between the router's events, the governor and the directives owners receive
 * (src/main/sfu/media-plane.ts), with the router's operations atomic.
 */
module MediaPlanes {
  import opened Bytes
  import opened Governors

  /** Which streams are published, by whom, and who subscribes to what. */
  datatype Router = Router(live: map<string, string>, subs: set<(string, string)>)

  datatype Event =
    | StreamLive(streamId: string, owner: string)
    | StreamEnded(streamId: string)
    | DemandChanged(streamId: string, owner: string, subscribers: nat)

  datatype Sent = Sent(owner: string, directive: Directive)

  /** `last` is the latest directive about a stream since it went live. */
  datatype Plane = Plane(router: Router, governor: Table, last: map<string, Sent>)

  /** `owned` and `touched` list a departing peer's streams and subscriptions in the router's order. */
  datatype Action =
    | Publish(owner: string, streamId: string)
    | Unpublish(streamId: string)
    | Subscribe(peer: string, streamId: string)
    | Unsubscribe(peer: string, streamId: string)
    | PeerGone(peer: string, owned: seq<string>, touched: seq<string>)
    | ReportLoss(peer: string, streamId: string, loss: real)
    | ReportCpu(streamId: string, cpu: real)
    | RunGovernor

  const ZERO := Directive(0, 0, 1.0)

  const EMPTY_PLANE := Plane(Router(map[], {}), map[], map[])

  function Watching(r: Router, id: string): set<(string, string)> { set s | s in r.subs && s.1 == id }

  /** The handlers the media plane attaches to the router. */
  function Handle(cfg: Config, p: Plane, ev: Event): Plane {
    match ev
    case StreamLive(id, owner) => p.(governor := Register(p.governor, id, owner), last := p.last - {id})
    case StreamEnded(id) => p.(governor := p.governor - {id}, last := p.last - {id})
    case DemandChanged(id, owner, subscribers) =>
      var t := SetPaused(p.governor, id, subscribers == 0);
      if subscribers == 0 then p.(governor := t, last := p.last[id := Sent(owner, ZERO)])
      else if id in t then p.(governor := t, last := p.last[id := Sent(owner, LevelDirective(cfg, t[id].level))])
      else p.(governor := t)
  }

  function EmitDemand(cfg: Config, p: Plane, id: string): Plane {
    if id in p.router.live then Handle(cfg, p, DemandChanged(id, p.router.live[id], |Watching(p.router, id)|)) else p
  }

  function DemandAll(cfg: Config, p: Plane, ids: seq<string>): Plane
    decreases |ids|
  {
    if ids == [] then p else DemandAll(cfg, EmitDemand(cfg, p, ids[0]), ids[1..])
  }

  function End(cfg: Config, p: Plane, id: string): Plane {
    if id !in p.router.live then p
    else
      var r := Router(p.router.live - {id}, set s | s in p.router.subs && s.1 != id);
      Handle(cfg, p.(router := r), StreamEnded(id))
  }

  function EndAll(cfg: Config, p: Plane, ids: seq<string>): Plane
    decreases |ids|
  {
    if ids == [] then p else EndAll(cfg, End(cfg, p, ids[0]), ids[1..])
  }

  function WithSubs(p: Plane, subs: set<(string, string)>): Plane { p.(router := p.router.(subs := subs)) }

  function SentOrders(orders: map<string, Order>): map<string, Sent> {
    map id | id in orders :: Sent(orders[id].owner, orders[id].directive)
  }

  function Next(cfg: Config, p: Plane, a: Action): Plane {
    match a
    case Publish(owner, id) =>
      if id in p.router.live then p
      else Handle(cfg, p.(router := p.router.(live := p.router.live[id := owner])), StreamLive(id, owner))
    case Unpublish(id) => End(cfg, p, id)
    case Subscribe(peer, id) =>
      if id !in p.router.live || (peer, id) in p.router.subs then p
      else EmitDemand(cfg, WithSubs(p, p.router.subs + {(peer, id)}), id)
    case Unsubscribe(peer, id) =>
      if (peer, id) !in p.router.subs then p
      else EmitDemand(cfg, WithSubs(p, p.router.subs - {(peer, id)}), id)
    case PeerGone(peer, owned, touched) =>
      var q := EndAll(cfg, p.(governor := DropSubscriber(p.governor, peer)), owned);
      DemandAll(cfg, WithSubs(q, set s | s in q.router.subs && s.0 != peer), touched)
    case ReportLoss(peer, id, loss) => p.(governor := IngestSubscriber(p.governor, id, peer, loss))
    case ReportCpu(id, cpu) => p.(governor := IngestPublisher(p.governor, id, cpu))
    case RunGovernor => p.(governor := EvaluateAll(cfg, p.governor), last := p.last + SentOrders(Orders(cfg, p.governor)))
  }

  function Run(cfg: Config, p: Plane, acts: seq<Action>): Plane
    decreases |acts|
  {
    if acts == [] then p else Run(cfg, Next(cfg, p, acts[0]), acts[1..])
  }

  // ----- what every step keeps -----

  /** Every published stream is governed, under its owner and its own name, and no other is. */
  ghost predicate Registered(p: Plane) {
    && p.governor.Keys == p.router.live.Keys && p.last.Keys <= p.governor.Keys
    && forall id | id in p.governor :: p.governor[id].streamId == id && p.governor[id].owner == p.router.live[id]
  }

  /** What the owner was last told is what the governor now holds: zero while paused, else the level's directive. */
  ghost predicate InStepAt(cfg: Config, s: Stream, told: Sent) {
    told == Sent(s.owner, if s.paused then ZERO else LevelDirective(cfg, s.level))
  }

  ghost predicate InStep(cfg: Config, p: Plane) {
    forall id | id in p.last && id in p.governor :: InStepAt(cfg, p.governor[id], p.last[id])
  }

  /** A paused stream has no subscriber; `but` names a stream about to be told. */
  ghost predicate PausedUnwatched(p: Plane, but: set<string>) {
    forall id | id in p.governor && id !in but && p.governor[id].paused :: id in p.last && Watching(p.router, id) == {}
  }

  ghost predicate Inv(cfg: Config, p: Plane, but: set<string>) { Registered(p) && InStep(cfg, p) && PausedUnwatched(p, but) }

  lemma EmitDemandKeeps(cfg: Config, p: Plane, id: string, but: set<string>)
    requires Inv(cfg, p, but)
    ensures Inv(cfg, EmitDemand(cfg, p, id), but - {id}) && EmitDemand(cfg, p, id).router == p.router
  {
    hide LevelDirective;
  }

  lemma {:induction false} DemandAllKeeps(cfg: Config, p: Plane, ids: seq<string>, but: set<string>)
    requires Inv(cfg, p, but) && forall id | id in but :: id in ids || id !in p.router.live
    ensures Inv(cfg, DemandAll(cfg, p, ids), {})
    decreases |ids|
  {
    hide Inv;
    if ids == [] {
      NobodyLeft(cfg, p, but);
    } else {
      EmitDemandKeeps(cfg, p, ids[0], but);
      DemandAllKeeps(cfg, EmitDemand(cfg, p, ids[0]), ids[1..], but - {ids[0]});
    }
  }

  lemma NobodyLeft(cfg: Config, p: Plane, but: set<string>)
    requires Inv(cfg, p, but) && forall id | id in but :: id !in p.router.live
    ensures Inv(cfg, p, {})
  {
  }

  lemma EndKeeps(cfg: Config, p: Plane, id: string)
    requires Inv(cfg, p, {})
    ensures Inv(cfg, End(cfg, p, id), {}) && End(cfg, p, id).router.subs <= p.router.subs
  {
    hide LevelDirective;
    if id in p.router.live {
      var q := End(cfg, p, id);
      forall x | x in q.governor ensures Watching(q.router, x) <= Watching(p.router, x) { }
    }
  }

  lemma {:induction false} EndAllKeeps(cfg: Config, p: Plane, ids: seq<string>)
    requires Inv(cfg, p, {})
    ensures Inv(cfg, EndAll(cfg, p, ids), {}) && EndAll(cfg, p, ids).router.subs <= p.router.subs
    decreases |ids|
  {
    if ids != [] {
      EndKeeps(cfg, p, ids[0]);
      EndAllKeeps(cfg, End(cfg, p, ids[0]), ids[1..]);
    }
  }

  /** Changing the subscriptions of some streams leaves only those to be told. */
  lemma SubsChange(cfg: Config, p: Plane, subs: set<(string, string)>, but: set<string>)
    requires Inv(cfg, p, {}) && forall s | s in subs && s !in p.router.subs :: s.1 in but
    ensures Inv(cfg, WithSubs(p, subs), but)
  {
    hide LevelDirective;
    var q := WithSubs(p, subs);
    forall id | id in q.governor && id !in but ensures Watching(q.router, id) <= Watching(p.router, id) { }
  }

  lemma EvaluationKeeps(cfg: Config, s: Stream)
    ensures var r := EvaluateOne(cfg, s);
            r.streamId == s.streamId && r.owner == s.owner && r.paused == s.paused && (s.paused ==> r == s)
  {
  }

  lemma GovernorKeeps(cfg: Config, p: Plane)
    requires Inv(cfg, p, {})
    ensures Inv(cfg, Next(cfg, p, RunGovernor), {})
  {
    hide LevelDirective, EvaluateOne;
    var t, orders := EvaluateAll(cfg, p.governor), Orders(cfg, p.governor);
    forall id | id in p.governor
      ensures t[id].paused == p.governor[id].paused && t[id].owner == p.governor[id].owner && t[id].streamId == id
      ensures p.governor[id].paused ==> t[id] == p.governor[id]
      ensures id in orders <==> t[id].level != p.governor[id].level
      ensures id in orders ==> orders[id] == OrderOf(cfg, t[id])
    {
      EvaluationKeeps(cfg, p.governor[id]);
    }
    OrdersKeep(cfg, p, t, orders);
  }

  lemma OrdersKeep(cfg: Config, p: Plane, t: Table, orders: map<string, Order>)
    requires Inv(cfg, p, {}) && t.Keys == p.governor.Keys && orders.Keys <= t.Keys
    requires forall id | id in t ::
               && t[id].paused == p.governor[id].paused && t[id].owner == p.governor[id].owner && t[id].streamId == id
               && (p.governor[id].paused ==> t[id] == p.governor[id])
               && (id in orders <==> t[id].level != p.governor[id].level)
               && (id in orders ==> orders[id] == OrderOf(cfg, t[id]))
    ensures Inv(cfg, p.(governor := t, last := p.last + SentOrders(orders)), {})
  {
    hide LevelDirective;
  }

  lemma SamplesKeep(cfg: Config, p: Plane, t: Table)
    requires Inv(cfg, p, {}) && t.Keys == p.governor.Keys
    requires forall id | id in t :: t[id].(subs := p.governor[id].subs, cpu := p.governor[id].cpu) == p.governor[id]
    ensures Inv(cfg, p.(governor := t), {})
  {
    hide LevelDirective;
    forall id | id in t
      ensures t[id].paused == p.governor[id].paused && t[id].owner == p.governor[id].owner && t[id].level == p.governor[id].level
      ensures t[id].streamId == p.governor[id].streamId
    { }
  }

  lemma PublishKeeps(cfg: Config, p: Plane, owner: string, id: string)
    requires Inv(cfg, p, {}) && id !in p.router.live
    ensures Inv(cfg, Next(cfg, p, Publish(owner, id)), {})
  {
    hide LevelDirective;
    var q := Next(cfg, p, Publish(owner, id));
    forall x ensures Watching(q.router, x) == Watching(p.router, x) { }
  }

  lemma NextKeeps(cfg: Config, p: Plane, a: Action)
    requires Inv(cfg, p, {})
    ensures Inv(cfg, Next(cfg, p, a), {})
  {
    hide Inv, EmitDemand, End, EndAll, DemandAll, EvaluateAll, Orders, Handle;
    match a
    case Publish(owner, id) => if id !in p.router.live { PublishKeeps(cfg, p, owner, id); }
    case Unpublish(id) => EndKeeps(cfg, p, id);
    case Subscribe(peer, id) =>
      SubsChange(cfg, p, p.router.subs + {(peer, id)}, {id});
      EmitDemandKeeps(cfg, WithSubs(p, p.router.subs + {(peer, id)}), id, {id});
      assert {id} - {id} == {};
    case Unsubscribe(peer, id) =>
      SubsChange(cfg, p, p.router.subs - {(peer, id)}, {});
      EmitDemandKeeps(cfg, WithSubs(p, p.router.subs - {(peer, id)}), id, {});
      assert {} - {id} == {};
    case PeerGone(peer, owned, touched) =>
      var t := DropSubscriber(p.governor, peer);
      SamplesKeep(cfg, p, t);
      EndAllKeeps(cfg, p.(governor := t), owned);
      var q := EndAll(cfg, p.(governor := t), owned);
      var subs := set s | s in q.router.subs && s.0 != peer;
      SubsChange(cfg, q, subs, {});
      DemandAllKeeps(cfg, WithSubs(q, subs), touched, {});
    case ReportLoss(peer, id, loss) => SamplesKeep(cfg, p, IngestSubscriber(p.governor, id, peer, loss));
    case ReportCpu(id, cpu) => SamplesKeep(cfg, p, IngestPublisher(p.governor, id, cpu));
    case RunGovernor => GovernorKeeps(cfg, p);
  }

  lemma {:induction false} RunKeeps(cfg: Config, p: Plane, acts: seq<Action>)
    requires Inv(cfg, p, {})
    ensures Inv(cfg, Run(cfg, p, acts), {})
    decreases |acts|
  {
    if acts != [] {
      NextKeeps(cfg, p, acts[0]);
      RunKeeps(cfg, Next(cfg, p, acts[0]), acts[1..]);
    }
  }

  /**
   * Over any run, once a stream's owner has been sent a directive, the last one it got is the zero directive
   * if the stream is paused and otherwise the directive of the governor's current level; and it is the zero
   * directive only while nobody subscribes.
   */
  lemma OwnerStaysInStep(cfg: Config, acts: seq<Action>, id: string)
    requires id in Run(cfg, EMPTY_PLANE, acts).last
    ensures var p := Run(cfg, EMPTY_PLANE, acts);
            && id in p.governor && id in p.router.live && p.governor[id].owner == p.router.live[id]
            && p.last[id] == Sent(p.router.live[id], if p.governor[id].paused then ZERO else LevelDirective(cfg, p.governor[id].level))
            && (p.governor[id].paused ==> Watching(p.router, id) == {})
  {
    RunKeeps(cfg, EMPTY_PLANE, acts);
    assert InStepAt(cfg, Run(cfg, EMPTY_PLANE, acts).governor[id], Run(cfg, EMPTY_PLANE, acts).last[id]);
  }

  /** The first subscriber of a paused stream resumes it at the level it was paused at. */
  lemma PauseAndResume(cfg: Config, p: Plane, id: string, first: string, second: string)
    requires Inv(cfg, p, {}) && id in p.router.live && Watching(p.router, id) == {(first, id)}
    ensures var paused := Next(cfg, p, Unsubscribe(first, id));
            var resumed := Next(cfg, paused, Subscribe(second, id));
            && paused.governor[id] == p.governor[id].(paused := true) && paused.last[id].directive == ZERO
            && resumed.governor[id] == p.governor[id].(paused := false)
            && resumed.last[id].directive == LevelDirective(cfg, p.governor[id].level)
  {
    hide LevelDirective;
    assert (first, id) in Watching(p.router, id);
    var paused := Next(cfg, p, Unsubscribe(first, id));
    var left := p.router.subs - {(first, id)};
    assert Watching(p.router.(subs := left), id) == {};
    assert (second, id) !in left by {
      assert (second, id) in left ==> (second, id) in Watching(p.router.(subs := left), id);
    }
    assert (second, id) in Watching(p.router.(subs := left + {(second, id)}), id);
  }

  // ----- what requests come to -----

  /** A request that makes no sense changes nothing: to watch or end what is not published, or twice; to publish what is. */
  lemma OddRequestsChangeNothing(cfg: Config, p: Plane, peer: string, id: string)
    ensures id !in p.router.live ==> Next(cfg, p, Subscribe(peer, id)) == p && Next(cfg, p, Unpublish(id)) == p
    ensures id in p.router.live ==> Next(cfg, p, Publish(peer, id)) == p
    ensures if (peer, id) in p.router.subs then Next(cfg, p, Subscribe(peer, id)) == p else Next(cfg, p, Unsubscribe(peer, id)) == p
  {
  }

  /** A stream starts at full quality with nothing known or said about it, and ends with nothing left of it, no other being touched. */
  lemma StreamsComeAndGo(cfg: Config, p: Plane, owner: string, id: string)
    requires Inv(cfg, p, {}) && id !in p.router.live
    ensures var q := Next(cfg, p, Publish(owner, id));
            && q.router == p.router.(live := p.router.live[id := owner])
            && q.governor == p.governor[id := Stream(id, owner, 0, false, 0, Restored, map[], None)]
            && q.last == p.last
    ensures forall x | x in p.router.live ::
              var q := Next(cfg, p, Unpublish(x));
              && q.router.live == p.router.live - {x} && q.governor == p.governor - {x} && q.last == p.last - {x}
              && forall s :: s in q.router.subs <==> s in p.router.subs && s.1 != x
  {
    hide LevelDirective;
    assert p.last - {id} == p.last;
  }

  /** Subscribing and unsubscribing are what they say, and touch no other stream's samples, level or pause. */
  lemma DemandIsKept(cfg: Config, p: Plane, peer: string, id: string, other: string)
    requires Inv(cfg, p, {}) && id in p.router.live && other in p.governor && other != id
    ensures var q := Next(cfg, p, Subscribe(peer, id)); q.router.subs == p.router.subs + {(peer, id)} && q.governor[other] == p.governor[other]
    ensures var q := Next(cfg, p, Unsubscribe(peer, id)); q.router.subs == p.router.subs - {(peer, id)} && q.governor[other] == p.governor[other]
  {
    hide LevelDirective;
  }

  // ----- the mutable media plane -----

  function AfterSending(last: map<string, Sent>, orders: seq<Order>): map<string, Sent> {
    if orders == [] then last
    else
      var o := orders[|orders| - 1];
      AfterSending(last, orders[..|orders| - 1])[o.streamId := Sent(o.owner, o.directive)]
  }

  /** Sending directives about different streams in any order leaves each owner with its own. */
  lemma {:induction false} SendingInOrder(orders: map<string, Order>, order: seq<string>, last: map<string, Sent>)
    requires forall id | id in orders :: orders[id].streamId == id
    ensures var r := AfterSending(last, InOrder(orders, order));
            && (forall id :: id in r <==> id in last || (id in order && id in orders))
            && (forall id | id in r :: r[id] == if id in order && id in orders then Sent(orders[id].owner, orders[id].directive) else last[id])
  {
    if order != [] {
      var init, id := order[..|order| - 1], order[|order| - 1];
      assert order == init + [id];
      SendingInOrder(orders, init, last);
      if id in orders {
        var before := InOrder(orders, init);
        assert (before + [orders[id]])[..|before|] == before;
      }
    }
  }

  lemma SendingAll(orders: map<string, Order>, order: seq<string>, ids: set<string>, last: map<string, Sent>)
    requires Lists(order, ids) && orders.Keys <= ids && forall id | id in orders :: orders[id].streamId == id
    ensures AfterSending(last, InOrder(orders, order)) == last + SentOrders(orders)
  {
    SendingInOrder(orders, order, last);
  }

  lemma EvaluationNames(cfg: Config, t: Table)
    requires forall id | id in t :: t[id].streamId == id
    ensures forall id | id in EvaluateAll(cfg, t) :: EvaluateAll(cfg, t)[id].streamId == id
    ensures Orders(cfg, t).Keys <= t.Keys && forall id | id in Orders(cfg, t) :: Orders(cfg, t)[id].streamId == id
  {
    hide LevelDirective, Tick, Bad;
  }

  /** The governor it drives and every directive it has sent; `router` is the router's state at each event. */
  class SfuMediaPlane {
    const cfg: Config
    const governor: Governor
    var router: Router
    var last: map<string, Sent>
    var sent: seq<Order>

    ghost function View(): Plane
      reads this, governor
    {
      Plane(router, governor.streams, last)
    }

    ghost predicate Valid()
      reads this, governor
    {
      governor.Valid() && governor.cfg == cfg && forall id | id in governor.streams :: governor.streams[id].streamId == id
    }

    constructor (cfg: Config)
      ensures fresh(governor) && this.cfg == cfg && Valid() && View() == EMPTY_PLANE && sent == []
    {
      this.cfg := cfg;
      governor := new Governor(cfg);
      router, last, sent := Router(map[], {}), map[], [];
    }

    method OnStreamLive(id: string, owner: string)
      requires Valid()
      modifies this`last, governor
      ensures Valid() && View() == Handle(cfg, old(View()), StreamLive(id, owner))
    {
      governor.RegisterStream(id, owner);
      last := last - {id};
    }

    method OnStreamEnded(id: string)
      requires Valid()
      modifies this`last, governor
      ensures Valid() && View() == Handle(cfg, old(View()), StreamEnded(id))
    {
      governor.ForgetStream(id);
      last := last - {id};
    }

    method OnDemandChanged(id: string, owner: string, subscribers: nat)
      requires Valid()
      modifies this`last, governor
      ensures Valid() && View() == Handle(cfg, old(View()), DemandChanged(id, owner, subscribers))
    {
      if subscribers == 0 {
        governor.PauseStream(id, true);
        last := last[id := Sent(owner, ZERO)];
      } else {
        governor.PauseStream(id, false);
        var resume := governor.ResumeDirective(id);
        if resume.Some? { last := last[id := Sent(owner, resume.value)]; }
      }
    }

    method RunGovernorOnce()
      requires Valid()
      modifies this`last, this`sent, governor
      ensures Valid() && View() == Next(cfg, old(View()), RunGovernor)
      ensures sent == old(sent) + InOrder(Orders(cfg, old(governor.streams)), old(governor.order))
    {
      ghost var t := governor.streams;
      EvaluationNames(cfg, t);
      SendingAll(Orders(cfg, t), governor.order, t.Keys, last);
      hide EvaluateOne, EvaluateAll, Orders, InOrder, SentOrders;
      var orders := governor.Evaluate();
      SendAll(orders);
    }

    method SendAll(orders: seq<Order>)
      modifies this`last, this`sent
      ensures last == AfterSending(old(last), orders) && sent == old(sent) + orders
    {
      for i := 0 to |orders|
        invariant last == AfterSending(old(last), orders[..i]) && sent == old(sent) + orders[..i]
      {
        assert orders[..i + 1][..i] == orders[..i];
        last := last[orders[i].streamId := Sent(orders[i].owner, orders[i].directive)];
        sent := sent + [orders[i]];
      }
      assert orders[..|orders|] == orders;
    }
  }
}
