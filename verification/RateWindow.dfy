/** The relay's per-address sliding windows (`#allow` and the rate half of `sweep`). */
module RateWindow {
  datatype Limits = Limits(maxRooms: nat, maxPeersPerRoom: nat, roomCreatesPerWindow: nat, joinsPerWindow: nat, rateWindowMs: int)
  datatype Kind = Creates | Joins
  datatype Bucket = Bucket(creates: seq<int>, joins: seq<int>)
  type Rates = map<string, Bucket>

  /** The timestamps of `ts` that are younger than the window at `now`. */
  function Fresh(ts: seq<int>, now: int, window: int): seq<int> {
    if ts == [] then []
    else
      var older := Fresh(ts[..|ts| - 1], now, window);
      if now - ts[|ts| - 1] < window then older + [ts[|ts| - 1]] else older
  }

  function Times(b: Bucket, kind: Kind): seq<int> {
    if kind == Creates then b.creates else b.joins
  }

  function WithTimes(b: Bucket, kind: Kind, ts: seq<int>): Bucket {
    if kind == Creates then b.(creates := ts) else b.(joins := ts)
  }

  function Cap(lim: Limits, kind: Kind): nat {
    if kind == Creates then lim.roomCreatesPerWindow else lim.joinsPerWindow
  }

  function BucketOf(rate: Rates, ip: string): Bucket {
    if ip in rate then rate[ip] else Bucket([], [])
  }

  datatype Verdict = Verdict(rate: Rates, allowed: bool)

  function Allow(rate: Rates, lim: Limits, ip: string, kind: Kind, now: int): Verdict {
    var b := BucketOf(rate, ip);
    var young := Fresh(Times(b, kind), now, lim.rateWindowMs);
    if |young| >= Cap(lim, kind) then Verdict(rate[ip := WithTimes(b, kind, young)], false)
    else Verdict(rate[ip := WithTimes(b, kind, young + [now])], true)
  }

  predicate AllStale(ts: seq<int>, now: int, window: int) {
    forall i | 0 <= i < |ts| :: now - ts[i] >= window
  }

  predicate Idle(b: Bucket, now: int, window: int) {
    AllStale(b.creates, now, window) && AllStale(b.joins, now, window)
  }

  function SweepRates(rate: Rates, lim: Limits, now: int): Rates {
    map ip | ip in rate && !Idle(rate[ip], now, lim.rateWindowMs) :: rate[ip]
  }

  // ----- the reference: a log of every grant, never pruned -----

  type Log = map<(string, Kind), seq<int>>

  function Grants(log: Log, ip: string, kind: Kind): seq<int> {
    if (ip, kind) in log then log[(ip, kind)] else []
  }

  predicate LogAllows(log: Log, lim: Limits, ip: string, kind: Kind, now: int) {
    |Fresh(Grants(log, ip, kind), now, lim.rateWindowMs)| < Cap(lim, kind)
  }

  datatype Op = Ask(ip: string, kind: Kind, now: int) | Sweep(now: int)

  predicate Monotone(ops: seq<Op>, from: int) {
    ops == [] || (from <= ops[0].now && Monotone(ops[1..], ops[0].now))
  }

  /** The answers of the real table, one per Ask. */
  function Answers(ops: seq<Op>, rate: Rates, lim: Limits): seq<bool> {
    if ops == [] then []
    else match ops[0]
      case Ask(ip, kind, now) =>
        var v := Allow(rate, lim, ip, kind, now);
        [v.allowed] + Answers(ops[1..], v.rate, lim)
      case Sweep(now) => Answers(ops[1..], SweepRates(rate, lim, now), lim)
  }

  function Granted(log: Log, lim: Limits, op: Op): Log {
    if op.Ask? && LogAllows(log, lim, op.ip, op.kind, op.now)
    then log[(op.ip, op.kind) := Grants(log, op.ip, op.kind) + [op.now]]
    else log
  }

  /** The answers of the unpruned log; a sweep means nothing to it. */
  function LogAnswers(ops: seq<Op>, log: Log, lim: Limits): seq<bool> {
    if ops == [] then []
    else if ops[0].Sweep? then LogAnswers(ops[1..], log, lim)
    else [LogAllows(log, lim, ops[0].ip, ops[0].kind, ops[0].now)] + LogAnswers(ops[1..], Granted(log, lim, ops[0]), lim)
  }

  function FinalLog(ops: seq<Op>, log: Log, lim: Limits): Log {
    if ops == [] then log else FinalLog(ops[1..], Granted(log, lim, ops[0]), lim)
  }

  function WithoutSweeps(ops: seq<Op>): seq<Op> {
    if ops == [] then [] else (if ops[0].Sweep? then [] else [ops[0]]) + WithoutSweeps(ops[1..])
  }

  // ----- lemmas -----

  lemma {:induction false} FreshTwice(ts: seq<int>, early: int, late: int, window: int)
    requires early <= late
    ensures Fresh(Fresh(ts, early, window), late, window) == Fresh(ts, late, window)
  {
    if ts != [] {
      var older, last := ts[..|ts| - 1], ts[|ts| - 1];
      FreshTwice(older, early, late, window);
      if early - last < window {
        var f := Fresh(older, early, window);
        assert (f + [last])[..|f|] == f;
      }
    }
  }

  lemma FreshSnoc(ts: seq<int>, t: int, now: int, window: int)
    ensures Fresh(ts + [t], now, window) == Fresh(ts, now, window) + if now - t < window then [t] else []
  {
    assert (ts + [t])[..|ts|] == ts;
  }

  lemma {:induction false} StaleHasNoFresh(ts: seq<int>, now: int, later: int, window: int)
    requires AllStale(ts, now, window) && now <= later
    ensures Fresh(ts, later, window) == []
  {
    if ts != [] {
      StaleHasNoFresh(ts[..|ts| - 1], now, later, window);
    }
  }

  /** The pruned table and the log give every later question the same material. */
  ghost predicate Agree(rate: Rates, log: Log, lim: Limits, t: int) {
    forall ip, kind, now | t <= now ::
      Fresh(Times(BucketOf(rate, ip), kind), now, lim.rateWindowMs) == Fresh(Grants(log, ip, kind), now, lim.rateWindowMs)
  }

  /** What asking makes of the times in the table and in the log. */
  lemma AskedTimes(rate: Rates, log: Log, lim: Limits, op: Op, ip: string, kind: Kind)
    requires op.Ask?
    ensures var v, young := Allow(rate, lim, op.ip, op.kind, op.now), Fresh(Times(BucketOf(rate, op.ip), op.kind), op.now, lim.rateWindowMs);
            && (v.allowed <==> |young| < Cap(lim, op.kind))
            && Times(BucketOf(v.rate, ip), kind)
               == (if ip != op.ip || kind != op.kind then Times(BucketOf(rate, ip), kind) else if v.allowed then young + [op.now] else young)
    ensures Grants(Granted(log, lim, op), ip, kind)
            == if ip == op.ip && kind == op.kind && LogAllows(log, lim, ip, kind, op.now) then Grants(log, ip, kind) + [op.now] else Grants(log, ip, kind)
  {
    hide Fresh;
  }

  lemma AskKeepsAgreement(rate: Rates, log: Log, lim: Limits, t: int, op: Op)
    requires op.Ask? && t <= op.now && Agree(rate, log, lim, t)
    ensures Allow(rate, lim, op.ip, op.kind, op.now).allowed == LogAllows(log, lim, op.ip, op.kind, op.now)
    ensures Agree(Allow(rate, lim, op.ip, op.kind, op.now).rate, Granted(log, lim, op), lim, op.now)
  {
    hide Fresh, Allow, Granted, Times, BucketOf, Grants;
    var v, log' := Allow(rate, lim, op.ip, op.kind, op.now), Granted(log, lim, op);
    var w := lim.rateWindowMs;
    var asked := Times(BucketOf(rate, op.ip), op.kind);
    var young := Fresh(asked, op.now, w);
    assert young == Fresh(Grants(log, op.ip, op.kind), op.now, w);
    AskedTimes(rate, log, lim, op, op.ip, op.kind);
    forall ip, kind, now | op.now <= now
      ensures Fresh(Times(BucketOf(v.rate, ip), kind), now, w) == Fresh(Grants(log', ip, kind), now, w)
    {
      assert Fresh(Times(BucketOf(rate, ip), kind), now, w) == Fresh(Grants(log, ip, kind), now, w);
      AskedTimes(rate, log, lim, op, ip, kind);
      if ip == op.ip && kind == op.kind {
        FreshTwice(asked, op.now, now, w);
        FreshSnoc(young, op.now, now, w);
        FreshSnoc(Grants(log, ip, kind), op.now, now, w);
      }
    }
  }

  lemma SweepKeepsAgreement(rate: Rates, log: Log, lim: Limits, t: int, now: int)
    requires t <= now && Agree(rate, log, lim, t)
    ensures Agree(SweepRates(rate, lim, now), log, lim, now)
  {
    var rate' := SweepRates(rate, lim, now);
    forall ip, kind, later | now <= later
      ensures Fresh(Times(BucketOf(rate', ip), kind), later, lim.rateWindowMs) == Fresh(Grants(log, ip, kind), later, lim.rateWindowMs)
    {
      assert Fresh(Times(BucketOf(rate, ip), kind), later, lim.rateWindowMs) == Fresh(Grants(log, ip, kind), later, lim.rateWindowMs);
      if ip in rate && ip !in rate' {
        StaleHasNoFresh(Times(rate[ip], kind), now, later, lim.rateWindowMs);
      }
    }
  }

  /** Pruning and sweeping never change an answer: the table answers as the full log does. */
  lemma {:induction false} PrunedEqualsFullHistory(ops: seq<Op>, rate: Rates, log: Log, lim: Limits, t: int)
    requires Monotone(ops, t) && Agree(rate, log, lim, t)
    ensures Answers(ops, rate, lim) == LogAnswers(ops, log, lim)
  {
    if ops != [] {
      match ops[0]
      case Ask(ip, kind, now) =>
        AskKeepsAgreement(rate, log, lim, t, ops[0]);
        PrunedEqualsFullHistory(ops[1..], Allow(rate, lim, ip, kind, now).rate, Granted(log, lim, ops[0]), lim, now);
      case Sweep(now) =>
        SweepKeepsAgreement(rate, log, lim, t, now);
        PrunedEqualsFullHistory(ops[1..], SweepRates(rate, lim, now), log, lim, now);
    }
  }

  lemma {:induction false} SweepsMeanNothingToTheLog(ops: seq<Op>, log: Log, lim: Limits, t: int)
    requires Monotone(ops, t)
    ensures LogAnswers(WithoutSweeps(ops), log, lim) == LogAnswers(ops, log, lim)
    ensures Monotone(WithoutSweeps(ops), t)
  {
    if ops != [] {
      var rest := WithoutSweeps(ops[1..]);
      if ops[0].Sweep? {
        SweepsMeanNothingToTheLog(ops[1..], log, lim, ops[0].now);
        assert WithoutSweeps(ops) == rest;
      } else {
        SweepsMeanNothingToTheLog(ops[1..], Granted(log, lim, ops[0]), lim, ops[0].now);
        assert WithoutSweeps(ops)[1..] == rest;
      }
    }
  }

  /** Sweeps may be inserted or dropped anywhere: no later answer notices. */
  lemma SweepsAreInvisible(ops: seq<Op>, lim: Limits, t: int)
    requires Monotone(ops, t)
    ensures Answers(ops, map[], lim) == Answers(WithoutSweeps(ops), map[], lim)
  {
    SweepsMeanNothingToTheLog(ops, map[], lim, t);
    PrunedEqualsFullHistory(ops, map[], map[], lim, t);
    PrunedEqualsFullHistory(WithoutSweeps(ops), map[], map[], lim, t);
  }

  // ----- no window of rateWindowMs ever holds more than the cap -----

  /** How many grants of `ts` fall in the half-open window [a, a + w). */
  function InWindow(ts: seq<int>, a: int, w: int): nat {
    if ts == [] then 0
    else InWindow(ts[..|ts| - 1], a, w) + if a <= ts[|ts| - 1] < a + w then 1 else 0
  }

  predicate Ordered(ts: seq<int>, upTo: int) {
    ts == [] || (ts[|ts| - 1] <= upTo && Ordered(ts[..|ts| - 1], ts[|ts| - 1]))
  }

  ghost predicate Bounded(log: Log, lim: Limits, t: int) {
    forall ip, kind :: Ordered(Grants(log, ip, kind), t) && forall a :: InWindow(Grants(log, ip, kind), a, lim.rateWindowMs) <= Cap(lim, kind)
  }

  lemma {:induction false} OrderedLater(ts: seq<int>, t: int, later: int)
    requires Ordered(ts, t) && t <= later
    ensures Ordered(ts, later)
  {
  }

  /** Everything in a window that reaches `now` is still fresh at `now`. */
  lemma {:induction false} WindowIsFresh(ts: seq<int>, a: int, now: int, w: int)
    requires a <= now < a + w
    ensures InWindow(ts, a, w) <= |Fresh(ts, now, w)|
  {
    if ts != [] { WindowIsFresh(ts[..|ts| - 1], a, now, w); }
  }

  lemma GrantKeepsBound(log: Log, lim: Limits, t: int, op: Op)
    requires Bounded(log, lim, t) && t <= op.now
    ensures Bounded(Granted(log, lim, op), lim, op.now)
  {
    var log' := Granted(log, lim, op);
    forall ip, kind
      ensures Ordered(Grants(log', ip, kind), op.now)
      ensures forall a :: InWindow(Grants(log', ip, kind), a, lim.rateWindowMs) <= Cap(lim, kind)
    {
      var before, after := Grants(log, ip, kind), Grants(log', ip, kind);
      OrderedLater(before, t, op.now);
      if after != before {
        assert after == before + [op.now] && after[..|before|] == before;
        forall a ensures InWindow(after, a, lim.rateWindowMs) <= Cap(lim, kind) {
          assert InWindow(before, a, lim.rateWindowMs) <= Cap(lim, kind);
          if a <= op.now < a + lim.rateWindowMs {
            WindowIsFresh(before, a, op.now, lim.rateWindowMs);
          }
        }
      }
    }
  }

  /** Over any run, each address gets at most its cap of grants in every window of rateWindowMs. */
  lemma {:induction false} GrantsPerWindowCapped(ops: seq<Op>, log: Log, lim: Limits, t: int)
    requires Monotone(ops, t) && Bounded(log, lim, t)
    ensures forall ip, kind, a :: InWindow(Grants(FinalLog(ops, log, lim), ip, kind), a, lim.rateWindowMs) <= Cap(lim, kind)
  {
    if ops != [] {
      GrantKeepsBound(log, lim, t, ops[0]);
      GrantsPerWindowCapped(ops[1..], Granted(log, lim, ops[0]), lim, ops[0].now);
    }
  }

  /** The fresh times are those of the last rateWindowMs. */
  lemma {:induction false} FreshIsLastWindow(ts: seq<int>, now: int, w: int)
    requires Ordered(ts, now)
    ensures InWindow(ts, now - w + 1, w) == |Fresh(ts, now, w)|
  {
    if ts != [] {
      var init, last := ts[..|ts| - 1], ts[|ts| - 1];
      OrderedLater(init, last, now);
      FreshIsLastWindow(init, now, w);
    }
  }

  lemma {:induction false} StaleExactlyWhen(ts: seq<int>, now: int, w: int)
    ensures AllStale(ts, now, w) <==> Fresh(ts, now, w) == []
  {
    if ts != [] {
      StaleExactlyWhen(ts[..|ts| - 1], now, w);
      assert ts == ts[..|ts| - 1] + [ts[|ts| - 1]];
    }
  }
}
