/** The bandwidth and CPU governor (src/main/sfu/governor.ts). */
module Governors {
  import opened Bytes
  import opened Arithmetic

  datatype Rung = Rung(kbpsFactor: real, maxFps: nat, scaleDownBy: real)

  const QUALITY_LADDER: seq<Rung> := [
    Rung(1.0, 60, 1.0), Rung(0.5, 30, 1.0), Rung(0.3, 30, 1.5), Rung(0.2, 15, 1.5), Rung(0.12, 15, 2.5)
  ]

  datatype Reason = Bandwidth | Cpu | Restored

  datatype Directive = Directive(maxKbps: int, maxFps: nat, scaleDownBy: real)

  datatype Order = Order(owner: string, streamId: string, directive: Directive, reason: Reason)

  datatype Config = Config(baseKbps: nat, lossThreshold: real, recoveryWindows: nat)

  type Level = x: nat | x < 5

  /** `subs` holds the latest loss each subscriber reported, `cpu` the publisher's latest pressure. */
  datatype Stream = Stream(
    streamId: string,
    owner: string,
    level: Level,
    paused: bool,
    healthyStreak: nat,
    lastReason: Reason,
    subs: map<string, real>,
    cpu: Option<real>
  )

  const BOTTOM: Level := 4

  function NewStream(streamId: string, owner: string): Stream {
    Stream(streamId, owner, 0, false, 0, Restored, map[], None)
  }

  /** The directive of a level: its share of the base bitrate, rounded half up. */
  function LevelDirective(cfg: Config, level: Level): Directive {
    var rung := QUALITY_LADDER[level];
    Directive((cfg.baseKbps as real * rung.kbpsFactor + 0.5).Floor, rung.maxFps, rung.scaleDownBy)
  }

  function Pressure(s: Stream): real { if s.cpu.Some? then s.cpu.value else 0.0 }

  predicate Bad(cfg: Config, s: Stream) {
    (exists p | p in s.subs :: s.subs[p] > cfg.lossThreshold) || Pressure(s) >= 1.0
  }

  predicate Evaluated(s: Stream) { !s.paused && s.subs != map[] }

  datatype Gauge = Gauge(level: Level, streak: nat)

  /** One evaluated window: down at once when bad, up only after enough healthy windows in a row. */
  function Tick(recovery: nat, g: Gauge, bad: bool): Gauge {
    if bad then Gauge(if g.level < BOTTOM then g.level + 1 else g.level, 0)
    else if g.streak + 1 >= recovery && g.level > 0 then Gauge(g.level - 1, 0)
    else Gauge(g.level, g.streak + 1)
  }

  function GaugeOf(s: Stream): Gauge { Gauge(s.level, s.healthyStreak) }

  function EvaluateOne(cfg: Config, s: Stream): Stream {
    if !Evaluated(s) then s
    else
      var bad := Bad(cfg, s);
      var g := Tick(cfg.recoveryWindows, GaugeOf(s), bad);
      var reason := if g.level == s.level then s.lastReason else if !bad then Restored else if Pressure(s) >= 1.0 then Cpu else Bandwidth;
      s.(level := g.level, healthyStreak := g.streak, lastReason := reason)
  }

  type Table = map<string, Stream>

  /** The directives of one evaluation: one for each stream whose level changed. */
  function Orders(cfg: Config, t: Table): map<string, Order> {
    map id | id in t && EvaluateOne(cfg, t[id]).level != t[id].level :: OrderOf(cfg, EvaluateOne(cfg, t[id]))
  }

  function OrderOf(cfg: Config, s: Stream): Order { Order(s.owner, s.streamId, LevelDirective(cfg, s.level), s.lastReason) }

  function EvaluateAll(cfg: Config, t: Table): Table { map id | id in t :: EvaluateOne(cfg, t[id]) }

  function Register(t: Table, id: string, owner: string): Table { if id in t then t else t[id := NewStream(id, owner)] }

  function SetPaused(t: Table, id: string, paused: bool): Table { if id in t then t[id := t[id].(paused := paused)] else t }

  function IngestSubscriber(t: Table, id: string, peer: string, loss: real): Table {
    if id in t then t[id := t[id].(subs := t[id].subs[peer := loss])] else t
  }

  function IngestPublisher(t: Table, id: string, cpu: real): Table {
    if id in t then t[id := t[id].(cpu := Some(cpu))] else t
  }

  function DropSubscriber(t: Table, peer: string): Table {
    map id | id in t :: t[id].(subs := t[id].subs - {peer})
  }

  /** Every key once: the order streams were registered in, which is the order they are evaluated in. */
  ghost predicate Lists(order: seq<string>, ids: set<string>) {
    && (forall i, j | 0 <= i < j < |order| :: order[i] != order[j])
    && (forall id :: id in order <==> id in ids)
  }

  function Kept(order: seq<string>, gone: string): seq<string> {
    if order == [] then []
    else if order[|order| - 1] == gone then Kept(order[..|order| - 1], gone)
    else Kept(order[..|order| - 1], gone) + [order[|order| - 1]]
  }

  lemma {:induction false} KeptIn(order: seq<string>, gone: string)
    ensures forall id :: id in Kept(order, gone) <==> id in order && id != gone
  {
    if order != [] {
      KeptIn(order[..|order| - 1], gone);
      assert order == order[..|order| - 1] + [order[|order| - 1]];
    }
  }

  lemma {:induction false} KeptOnce(order: seq<string>, gone: string)
    requires forall i, j | 0 <= i < j < |order| :: order[i] != order[j]
    ensures forall i, j | 0 <= i < j < |Kept(order, gone)| :: Kept(order, gone)[i] != Kept(order, gone)[j]
  {
    if order != [] {
      var init := order[..|order| - 1];
      KeptOnce(init, gone);
      KeptIn(init, gone);
      forall i | 0 <= i < |Kept(init, gone)| ensures Kept(init, gone)[i] != order[|order| - 1] {
        assert Kept(init, gone)[i] in Kept(init, gone);
        assert Kept(init, gone)[i] in init;
      }
    }
  }

  lemma KeptLists(order: seq<string>, ids: set<string>, gone: string)
    requires Lists(order, ids)
    ensures Lists(Kept(order, gone), ids - {gone})
  {
    KeptIn(order, gone);
    KeptOnce(order, gone);
  }

  /** The directives of one evaluation, in the order they are returned. */
  function InOrder(orders: map<string, Order>, order: seq<string>): seq<Order> {
    if order == [] then []
    else if order[|order| - 1] in orders then InOrder(orders, order[..|order| - 1]) + [orders[order[|order| - 1]]]
    else InOrder(orders, order[..|order| - 1])
  }

  class Governor {
    const cfg: Config
    var streams: Table
    var order: seq<string>

    ghost predicate Valid()
      reads this
    {
      Lists(order, streams.Keys)
    }

    constructor (cfg: Config)
      ensures this.cfg == cfg && streams == map[] && order == [] && Valid()
    {
      this.cfg := cfg;
      streams, order := map[], [];
    }

    method RegisterStream(id: string, owner: string)
      requires Valid()
      modifies this
      ensures Valid() && streams == Register(old(streams), id, owner)
      ensures order == if id in old(streams) then old(order) else old(order) + [id]
    {
      if id in streams { return; }
      streams := streams[id := NewStream(id, owner)];
      order := order + [id];
    }

    method ForgetStream(id: string)
      requires Valid()
      modifies this
      ensures Valid() && streams == old(streams) - {id} && order == Kept(old(order), id)
    {
      KeptLists(order, streams.Keys, id);
      streams := streams - {id};
      order := Kept(order, id);
    }

    method PauseStream(id: string, paused: bool)
      requires Valid()
      modifies this`streams
      ensures Valid() && streams == SetPaused(old(streams), id, paused)
    {
      if id in streams { streams := streams[id := streams[id].(paused := paused)]; }
    }

    method Ingest(id: string, peer: string, loss: real)
      requires Valid()
      modifies this`streams
      ensures Valid() && streams == IngestSubscriber(old(streams), id, peer, loss)
    {
      if id in streams { streams := streams[id := streams[id].(subs := streams[id].subs[peer := loss])]; }
    }

    method IngestCpu(id: string, cpu: real)
      requires Valid()
      modifies this`streams
      ensures Valid() && streams == IngestPublisher(old(streams), id, cpu)
    {
      if id in streams { streams := streams[id := streams[id].(cpu := Some(cpu))]; }
    }

    /** The directive that resumes a stream at the level it is on. */
    method ResumeDirective(id: string) returns (d: Option<Directive>)
      ensures d == if id in streams then Some(LevelDirective(cfg, streams[id].level)) else None
    {
      if id !in streams { return None; }
      return Some(LevelDirective(cfg, streams[id].level));
    }

    method DropSubscriberEverywhere(peer: string)
      requires Valid()
      modifies this`streams
      ensures Valid() && streams == DropSubscriber(old(streams), peer)
    {
      var t, rest := streams, streams.Keys;
      ghost var was := streams;
      while rest != {}
        invariant t.Keys == was.Keys && rest <= t.Keys
        invariant forall id | id in was :: t[id] == if id in rest then was[id] else was[id].(subs := was[id].subs - {peer})
        decreases |rest|
      {
        var id :| id in rest;
        t := t[id := t[id].(subs := t[id].subs - {peer})];
        rest := rest - {id};
      }
      streams := t;
    }

    method WorstLoss(subs: map<string, real>) returns (worst: real)
      requires subs != map[]
      ensures exists p | p in subs :: subs[p] == worst
      ensures forall p | p in subs :: subs[p] <= worst
    {
      var first :| first in subs;
      worst := subs[first];
      var rest := subs.Keys - {first};
      while rest != {}
        invariant rest <= subs.Keys
        invariant exists p | p in subs :: subs[p] == worst
        invariant forall p | p in subs && p !in rest :: subs[p] <= worst
        decreases |rest|
      {
        var p :| p in rest;
        if subs[p] > worst { worst := subs[p]; }
        rest := rest - {p};
      }
    }

    method EvaluateStream(s: Stream) returns (r: Stream)
      ensures r == EvaluateOne(cfg, s)
    {
      if s.paused || s.subs == map[] { return s; }
      var worst := WorstLoss(s.subs);
      var cpu := if s.cpu.Some? then s.cpu.value else 0.0;
      var unhealthy := worst > cfg.lossThreshold || cpu >= 1.0;
      assert unhealthy == Bad(cfg, s);
      if unhealthy && s.level < BOTTOM {
        return s.(level := s.level + 1, lastReason := if cpu >= 1.0 then Cpu else Bandwidth, healthyStreak := 0);
      }
      if unhealthy { return s.(healthyStreak := 0); }
      var streak := s.healthyStreak + 1;
      if streak >= cfg.recoveryWindows && s.level > 0 {
        return s.(level := s.level - 1, lastReason := Restored, healthyStreak := 0);
      }
      return s.(healthyStreak := streak);
    }

    method Evaluate() returns (out: seq<Order>)
      requires Valid()
      modifies this`streams
      ensures Valid() && streams == EvaluateAll(cfg, old(streams))
      ensures out == InOrder(Orders(cfg, old(streams)), order)
    {
      var t;
      t, out := EvaluateEach(streams, order);
      streams := t;
    }

    /** The evaluation loop over the streams in their order. */
    method EvaluateEach(was: Table, ids: seq<string>) returns (t: Table, out: seq<Order>)
      requires Lists(ids, was.Keys)
      ensures t == EvaluateAll(cfg, was) && out == InOrder(Orders(cfg, was), ids)
    {
      hide EvaluateOne, OrderOf, Orders, Lists;
      t, out := was, [];
      ghost var rest := was.Keys;
      for i := 0 to |ids|
        invariant t.Keys == was.Keys && Lists(ids[i..], rest) && rest <= was.Keys
        invariant forall id | id in was :: t[id] == if id in rest then was[id] else EvaluateOne(cfg, was[id])
        invariant out == InOrder(Orders(cfg, was), ids[..i])
      {
        var id := ids[i];
        assert ids[..i + 1][..i] == ids[..i];
        assert ids[i..][0] == id && ids[i..][1..] == ids[i + 1..];
        ListsTail(ids[i..], rest);
        OrderOfOne(cfg, was, id);
        var s := EvaluateStream(t[id]);
        if s.level != t[id].level { out := out + [OrderOf(cfg, s)]; }
        t := t[id := s];
        rest := rest - {id};
      }
      assert ids[..|ids|] == ids && ids[|ids|..] == [];
      ListsNone(rest);
    }
  }

  lemma ListsTail(order: seq<string>, ids: set<string>)
    requires Lists(order, ids) && order != []
    ensures order[0] in ids && Lists(order[1..], ids - {order[0]})
  {
    assert order == [order[0]] + order[1..];
  }

  lemma ListsNone(ids: set<string>)
    ensures Lists([], ids) ==> ids == {}
  {
    if Lists([], ids) {
      assert forall id | id in ids :: id in [];
    }
  }

  lemma OrderOfOne(cfg: Config, t: Table, id: string)
    requires id in t
    ensures id in Orders(cfg, t) <==> EvaluateOne(cfg, t[id]).level != t[id].level
    ensures id in Orders(cfg, t) ==> Orders(cfg, t)[id] == OrderOf(cfg, EvaluateOne(cfg, t[id]))
  {
  }

  // ----- what one evaluation makes of the samples -----

  /** Some subscriber's latest loss is over the threshold, or the publisher's latest pressure is at or over 1. */
  ghost predicate Strained(cfg: Config, s: Stream) {
    (exists p | p in s.subs :: s.subs[p] > cfg.lossThreshold) || (s.cpu.Some? && s.cpu.value >= 1.0)
  }

  /** A strained stream goes one level down, as far as the ladder goes, and starts its count of healthy windows over. */
  lemma StrainLowers(cfg: Config, s: Stream)
    requires !s.paused && s.subs != map[] && Strained(cfg, s)
    ensures var r := EvaluateOne(cfg, s);
            && r.level == (if s.level == 4 then 4 else s.level + 1) && r.healthyStreak == 0
            && (s.level < 4 ==> r.lastReason == if s.cpu.Some? && s.cpu.value >= 1.0 then Cpu else Bandwidth)
  {
  }

  /** A stream whose losses are all at or under the threshold, and its publisher not at full pressure, never goes down. */
  lemma CalmNeverLowers(cfg: Config, s: Stream)
    requires (forall p | p in s.subs :: s.subs[p] <= cfg.lossThreshold) && (s.cpu.None? || s.cpu.value < 1.0)
    ensures var r := EvaluateOne(cfg, s);
            && r.level <= s.level && (r.level < s.level ==> r.lastReason == Restored)
            && (!s.paused && s.subs != map[] ==> r.healthyStreak == s.healthyStreak + 1 || (r.healthyStreak == 0 && r.level < s.level))
  {
  }

  /** A paused or unreported stream sits the evaluation out, and nothing but level, count and reason ever changes. */
  lemma SitsOut(cfg: Config, s: Stream)
    ensures s.paused || s.subs == map[] ==> EvaluateOne(cfg, s) == s
    ensures var r := EvaluateOne(cfg, s); r == s.(level := r.level, healthyStreak := r.healthyStreak, lastReason := r.lastReason)
    ensures EvaluateOne(cfg, s).level == s.level ==> EvaluateOne(cfg, s).lastReason == s.lastReason
  {
  }

  /** A directive asks for the level's share of the base bitrate to the nearest kilobit, at the level's rate and scale. */
  lemma DirectiveOfLevel(cfg: Config, level: Level)
    ensures var d := LevelDirective(cfg, level);
            var share := [1.0, 0.5, 0.3, 0.2, 0.12][level];
            && -0.5 <= d.maxKbps as real - cfg.baseKbps as real * share <= 0.5
            && d.maxFps == [60, 30, 30, 15, 15][level] && d.scaleDownBy == [1.0, 1.0, 1.5, 1.5, 2.5][level]
  {
  }

  /** The lower a stream is, the less it is asked for. */
  lemma LowerAsksForLess(cfg: Config, a: Level, b: Level)
    requires a <= b
    ensures var x, y := LevelDirective(cfg, a), LevelDirective(cfg, b);
            y.maxKbps <= x.maxKbps && y.maxFps <= x.maxFps && y.scaleDownBy >= x.scaleDownBy
  {
    var i, j := QUALITY_LADDER[a].kbpsFactor, QUALITY_LADDER[b].kbpsFactor;
    assert cfg.baseKbps as real * j <= cfg.baseKbps as real * i;
  }

  // ----- how levels move over evaluated windows -----

  function Ticks(recovery: nat, g: Gauge, windows: seq<bool>): Gauge {
    if windows == [] then g else Tick(recovery, Ticks(recovery, g, windows[..|windows| - 1]), windows[|windows| - 1])
  }

  function Rises(recovery: nat, g: Gauge, windows: seq<bool>): nat {
    if windows == [] then 0
    else
      var before := Ticks(recovery, g, windows[..|windows| - 1]);
      Rises(recovery, g, windows[..|windows| - 1]) + if Ticks(recovery, g, windows).level < before.level then 1 else 0
  }

  lemma {:induction false} TicksCons(recovery: nat, g: Gauge, b: bool, windows: seq<bool>)
    ensures Ticks(recovery, g, [b] + windows) == Ticks(recovery, Tick(recovery, g, b), windows)
    ensures Rises(recovery, g, [b] + windows)
            == (if Tick(recovery, g, b).level < g.level then 1 else 0) + Rises(recovery, Tick(recovery, g, b), windows)
  {
    hide Tick;
    if windows == [] {
      assert [b] + windows == [b] && [b][..0] == [];
      assert Ticks(recovery, g, []) == g;
    } else {
      var init := windows[..|windows| - 1];
      assert ([b] + windows)[..|windows|] == [b] + init;
      TicksCons(recovery, g, b, init);
    }
  }

  /** How many healthy windows in a row end here, since the last bad window or change of level. */
  function HealthyRun(recovery: nat, g: Gauge, windows: seq<bool>): nat {
    if windows == [] then 0
    else
      var init := windows[..|windows| - 1];
      if windows[|windows| - 1] || Ticks(recovery, g, windows).level != Ticks(recovery, g, init).level then 0
      else HealthyRun(recovery, g, init) + 1
  }

  lemma {:induction false} StreakIsHealthyRun(recovery: nat, level: Level, windows: seq<bool>)
    ensures Ticks(recovery, Gauge(level, 0), windows).streak == HealthyRun(recovery, Gauge(level, 0), windows)
    ensures recovery >= 1 && Ticks(recovery, Gauge(level, 0), windows).level > 0 ==>
              Ticks(recovery, Gauge(level, 0), windows).streak < recovery
  {
    if windows != [] { StreakIsHealthyRun(recovery, level, windows[..|windows| - 1]); }
  }

  /**
   * The level rises on a window exactly when it is not already at the top and the window is the
   * recoveryWindows-th healthy one in a row since the last bad window or change; it drops exactly on a bad one.
   */
  lemma RisesExactlyWhen(recovery: nat, level: Level, windows: seq<bool>, bad: bool)
    requires recovery >= 1
    ensures var g := Gauge(level, 0);
            var before, after := Ticks(recovery, g, windows), Ticks(recovery, g, windows + [bad]);
            && (after.level < before.level <==> !bad && before.level > 0 && HealthyRun(recovery, g, windows) + 1 == recovery)
            && (after.level > before.level <==> bad && before.level < BOTTOM)
            && before.level - 1 <= after.level <= before.level + 1
  {
    assert (windows + [bad])[..|windows|] == windows;
    StreakIsHealthyRun(recovery, level, windows);
  }

  /** Below the top, a streak is short of what a rise takes. */
  predicate Sound(recovery: nat, g: Gauge) { g.level > 0 ==> g.streak < recovery }

  /** The healthy windows that already count towards the next rise. */
  function Spare(g: Gauge): nat { if g.level > 0 then g.streak else 0 }

  lemma TickCosts(recovery: nat, g: Gauge, bad: bool)
    requires recovery >= 1 && Sound(recovery, g)
    ensures var r := Tick(recovery, g, bad);
            && Sound(recovery, r)
            && (r.level < g.level ==> Spare(r) + recovery <= Spare(g) + 1)
            && Spare(r) <= Spare(g) + 1
  {
  }

  /** Any n windows hold at most n / recoveryWindows rises, counting the healthy windows they start with. */
  lemma {:induction false} RisesAreRare(recovery: nat, g: Gauge, windows: seq<bool>)
    requires recovery >= 1 && Sound(recovery, g)
    ensures Sound(recovery, Ticks(recovery, g, windows))
    ensures recovery * Rises(recovery, g, windows) + Spare(Ticks(recovery, g, windows)) <= |windows| + Spare(g)
    ensures Rises(recovery, g, windows) <= (|windows| + Spare(g)) / recovery
  {
    hide Tick;
    var n := Rises(recovery, g, windows);
    if windows != [] {
      var init := windows[..|windows| - 1];
      RisesAreRare(recovery, g, init);
      TickCosts(recovery, Ticks(recovery, g, init), windows[|windows| - 1]);
      OneMore(recovery, Rises(recovery, g, init));
      assert n == Rises(recovery, g, init) || n == Rises(recovery, g, init) + 1;
    }
    AtMostQuotient(recovery, n, |windows| + Spare(g));
  }

  lemma OneMore(q: nat, n: nat)
    ensures q * (n + 1) == q * n + q
  {
  }

  lemma AtMostQuotient(q: nat, n: nat, total: nat)
    requires q >= 1 && q * n <= total
    ensures n <= total / q
  {
    var d := total / q;
    assert total == q * d + total % q;
    assert q * n < q * (d + 1);
  }

  function Healthy(k: nat): seq<bool> { seq(k, i => false) }

  /** After k healthy windows the level has risen exactly once per recoveryWindows, counting those already healthy. */
  lemma {:induction false} HealthyWindowsRestore(recovery: nat, g: Gauge, k: nat)
    requires recovery >= 1 && Sound(recovery, g)
    ensures var r := Ticks(recovery, g, Healthy(k)).level;
            r as int == if (g.streak + k) / recovery >= g.level then 0 else g.level - (g.streak + k) / recovery
    ensures var r := Ticks(recovery, g, Healthy(k));
            r.level > 0 ==> r.streak == (g.streak + k) % recovery
  {
    if k > 0 {
      HealthyWindowsRestore(recovery, g, k - 1);
      assert Healthy(k)[..k - 1] == Healthy(k - 1);
      OneMoreWindow(recovery, g.streak + k - 1);
    } else if g.level > 0 {
      assert g.streak / recovery == 0 && g.streak % recovery == g.streak by { SmallQuotient(recovery, g.streak); }
    }
  }

  lemma SmallQuotient(q: nat, n: nat)
    requires n < q
    ensures n / q == 0 && n % q == n
  {
  }

  lemma OneMoreWindow(q: nat, n: nat)
    requires q >= 1
    ensures if n % q + 1 == q then (n + 1) / q == n / q + 1 && (n + 1) % q == 0
            else (n + 1) / q == n / q && (n + 1) % q == n % q + 1
  {
    var d, r := n / q, n % q;
    assert n == q * d + r;
    if r + 1 == q {
      assert n + 1 == q * (d + 1);
      Quotient(q, d + 1, 0, n + 1);
    } else {
      Quotient(q, d, r + 1, n + 1);
    }
  }

  /** All-healthy windows bring any level back to the top within level * recoveryWindows of them. */
  lemma RestoredInTime(recovery: nat, g: Gauge, k: nat)
    requires recovery >= 1 && Sound(recovery, g) && k >= g.level * recovery
    ensures Ticks(recovery, g, Healthy(k)).level == 0
  {
    hide Ticks, Healthy;
    HealthyWindowsRestore(recovery, g, k);
    assert recovery * g.level == g.level * recovery;
    AtMostQuotient(recovery, g.level, g.streak + k);
  }

  /** Only an evaluated window moves a stream's gauge. */
  lemma GaugeMovesByTicks(cfg: Config, t: Table, id: string)
    requires id in t
    ensures GaugeOf(EvaluateAll(cfg, t)[id])
            == if Evaluated(t[id]) then Tick(cfg.recoveryWindows, GaugeOf(t[id]), Bad(cfg, t[id])) else GaugeOf(t[id])
  {
  }
}
