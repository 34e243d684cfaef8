/** The host's handshake limiter with exponential backoff (src/main/signaling/rate-limit.ts). */
module RateLimit {
  import opened Bytes
  import opened Arithmetic
  import RateWindow

  datatype Config = Config(burst: nat, windowMs: int, baseBackoffMs: nat, maxBackoffMs: nat)

  datatype Bucket = Bucket(hits: seq<int>, blockedUntil: int, overflowCount: nat)

  type Buckets = map<string, Bucket>

  const NEW_BUCKET := Bucket([], 0, 0)

  function Min(a: nat, b: nat): nat { if a < b then a else b }

  /** How long the nth overflow waits, counting from 0. */
  function Backoff(cfg: Config, n: nat): nat { Min(cfg.baseBackoffMs * Pow2(n), cfg.maxBackoffMs) }

  datatype Taken = Taken(bucket: Bucket, wait: Option<int>)

  function Take(cfg: Config, b: Bucket, now: int): Taken {
    if now < b.blockedUntil then Taken(b, Some(b.blockedUntil - now))
    else
      var hits := RateWindow.Fresh(b.hits, now, cfg.windowMs);
      if |hits| >= cfg.burst then
        var backoff := Backoff(cfg, b.overflowCount);
        Taken(Bucket(hits, now + backoff, b.overflowCount + 1), Some(backoff))
      else Taken(b.(hits := hits + [now]), None)
  }

  /** A sweep may drop the bucket: it blocks nobody and all its hits are stale. */
  predicate Idle(cfg: Config, b: Bucket, now: int) {
    now > b.blockedUntil && RateWindow.AllStale(b.hits, now, cfg.windowMs)
  }

  function Of(bs: Buckets, key: string): Bucket { if key in bs then bs[key] else NEW_BUCKET }

  function SweepAll(cfg: Config, bs: Buckets, now: int): Buckets {
    map key | key in bs && !Idle(cfg, bs[key], now) :: bs[key]
  }

  class RateLimiter {
    const cfg: Config
    var buckets: Buckets

    constructor (cfg: Config)
      ensures this.cfg == cfg && buckets == map[]
    {
      this.cfg := cfg;
      buckets := map[];
    }

    method TakeKey(key: string, now: int) returns (wait: Option<int>)
      modifies this
      ensures wait == Take(cfg, Of(old(buckets), key), now).wait
      ensures buckets == old(buckets)[key := Take(cfg, Of(old(buckets), key), now).bucket]
    {
      var bucket := if key in buckets then buckets[key] else NEW_BUCKET;
      buckets := buckets[key := bucket];
      if now < bucket.blockedUntil { return Some(bucket.blockedUntil - now); }
      var hits := FreshHits(bucket.hits, now);
      bucket := bucket.(hits := hits);
      if |hits| >= cfg.burst {
        var backoff := Min(cfg.baseBackoffMs * Pow2(bucket.overflowCount), cfg.maxBackoffMs);
        buckets := buckets[key := Bucket(hits, now + backoff, bucket.overflowCount + 1)];
        return Some(backoff);
      }
      buckets := buckets[key := bucket.(hits := hits + [now])];
      return None;
    }

    method FreshHits(ts: seq<int>, now: int) returns (kept: seq<int>)
      ensures kept == RateWindow.Fresh(ts, now, cfg.windowMs)
    {
      kept := [];
      for i := 0 to |ts|
        invariant kept == RateWindow.Fresh(ts[..i], now, cfg.windowMs)
      {
        assert ts[..i + 1][..i] == ts[..i];
        if now - ts[i] < cfg.windowMs { kept := kept + [ts[i]]; }
      }
      assert ts[..|ts|] == ts;
    }

    method Clear(key: string)
      modifies this
      ensures buckets == old(buckets) - {key}
    {
      buckets := buckets - {key};
    }

    method Sweep(now: int)
      modifies this
      ensures buckets == SweepAll(cfg, old(buckets), now)
    {
      var rest := buckets.Keys;
      while rest != {}
        invariant rest <= buckets.Keys <= old(buckets).Keys
        invariant forall k | k in buckets :: buckets[k] == old(buckets)[k]
        invariant forall k | k in old(buckets) && k !in rest :: k in buckets <==> !Idle(cfg, old(buckets)[k], now)
        invariant forall k | k in rest :: k in buckets
        decreases |rest|
      {
        var key :| key in rest;
        rest := rest - {key};
        if Idle(cfg, buckets[key], now) { buckets := buckets - {key}; }
      }
    }
  }

  // ----- the burst bound, against the log of every grant since the last clear -----

  datatype Op = Ask(key: string, now: int) | Reset(key: string) | SweepOp(now: int)

  type Log = map<string, seq<int>>

  function Granted(log: Log, key: string): seq<int> { if key in log then log[key] else [] }

  datatype World = World(buckets: Buckets, log: Log)

  function Step(cfg: Config, w: World, op: Op): World {
    match op
    case Ask(key, now) =>
      var t := Take(cfg, Of(w.buckets, key), now);
      World(w.buckets[key := t.bucket], if t.wait.None? then w.log[key := Granted(w.log, key) + [now]] else w.log)
    case Reset(key) => World(w.buckets - {key}, w.log - {key})
    case SweepOp(now) => World(SweepAll(cfg, w.buckets, now), w.log)
  }

  function Run(cfg: Config, w: World, ops: seq<Op>): World
    decreases |ops|
  {
    if ops == [] then w else Run(cfg, Step(cfg, w, ops[0]), ops[1..])
  }

  function TimeOf(op: Op, before: int): int { if op.Reset? then before else op.now }

  predicate Monotone(ops: seq<Op>, from: int) {
    ops == [] || (from <= TimeOf(ops[0], from) && Monotone(ops[1..], TimeOf(ops[0], from)))
  }

  /** The bucket remembers every grant that can still matter, and the log is ordered and within the bound. */
  ghost predicate KeyInv(cfg: Config, b: Bucket, log: seq<int>, t: int) {
    && (forall now | t <= now :: RateWindow.Fresh(b.hits, now, cfg.windowMs) == RateWindow.Fresh(log, now, cfg.windowMs))
    && RateWindow.Ordered(log, t)
    && (forall a :: RateWindow.InWindow(log, a, cfg.windowMs) <= cfg.burst)
  }

  ghost predicate Inv(cfg: Config, w: World, t: int) {
    forall key :: KeyInv(cfg, Of(w.buckets, key), Granted(w.log, key), t)
  }

  lemma LaterKeeps(cfg: Config, b: Bucket, log: seq<int>, t: int, later: int)
    requires KeyInv(cfg, b, log, t) && t <= later
    ensures KeyInv(cfg, b, log, later)
  {
    RateWindow.OrderedLater(log, t, later);
  }

  lemma TakeKeeps(cfg: Config, b: Bucket, log: seq<int>, t: int, now: int)
    requires KeyInv(cfg, b, log, t) && t <= now
    ensures var r := Take(cfg, b, now); KeyInv(cfg, r.bucket, if r.wait.None? then log + [now] else log, now)
  {
    var r, w := Take(cfg, b, now), cfg.windowMs;
    LaterKeeps(cfg, b, log, t, now);
    if now >= b.blockedUntil {
      var hits := RateWindow.Fresh(b.hits, now, w);
      var log' := if r.wait.None? then log + [now] else log;
      forall later | now <= later ensures RateWindow.Fresh(r.bucket.hits, later, w) == RateWindow.Fresh(log', later, w) {
        RateWindow.FreshTwice(b.hits, now, later, w);
        RateWindow.FreshSnoc(hits, now, later, w);
        RateWindow.FreshSnoc(log, now, later, w);
      }
      if r.wait.None? { GrantFits(cfg, log, now); }
    }
  }

  lemma GrantFits(cfg: Config, log: seq<int>, now: int)
    requires RateWindow.Ordered(log, now) && |RateWindow.Fresh(log, now, cfg.windowMs)| < cfg.burst
    requires forall a :: RateWindow.InWindow(log, a, cfg.windowMs) <= cfg.burst
    ensures RateWindow.Ordered(log + [now], now)
    ensures forall a :: RateWindow.InWindow(log + [now], a, cfg.windowMs) <= cfg.burst
  {
    assert (log + [now])[..|log|] == log;
    forall a ensures RateWindow.InWindow(log + [now], a, cfg.windowMs) <= cfg.burst {
      assert RateWindow.InWindow(log, a, cfg.windowMs) <= cfg.burst;
      if a <= now < a + cfg.windowMs { RateWindow.WindowIsFresh(log, a, now, cfg.windowMs); }
    }
  }

  lemma StepKeeps(cfg: Config, w: World, op: Op, t: int)
    requires Inv(cfg, w, t) && t <= TimeOf(op, t)
    ensures Inv(cfg, Step(cfg, w, op), TimeOf(op, t))
  {
    var w', t' := Step(cfg, w, op), TimeOf(op, t);
    forall key ensures KeyInv(cfg, Of(w'.buckets, key), Granted(w'.log, key), t') {
      assert KeyInv(cfg, Of(w.buckets, key), Granted(w.log, key), t);
      LaterKeeps(cfg, Of(w.buckets, key), Granted(w.log, key), t, t');
      if op == Ask(key, t') {
        TakeKeeps(cfg, Of(w.buckets, key), Granted(w.log, key), t, t');
      } else if op.SweepOp? && key in w.buckets && key !in w'.buckets {
        SweptKeeps(cfg, w.buckets[key], Granted(w.log, key), t');
      }
    }
  }

  lemma SweptKeeps(cfg: Config, b: Bucket, log: seq<int>, now: int)
    requires KeyInv(cfg, b, log, now) && Idle(cfg, b, now)
    ensures KeyInv(cfg, NEW_BUCKET, log, now)
  {
    forall later | now <= later ensures RateWindow.Fresh([], later, cfg.windowMs) == RateWindow.Fresh(log, later, cfg.windowMs) {
      RateWindow.StaleHasNoFresh(b.hits, now, later, cfg.windowMs);
    }
  }

  /** Between clears, sweeps or no sweeps, every window of windowMs holds at most `burst` grants of a key. */
  lemma {:induction false} BurstPerWindow(cfg: Config, w: World, ops: seq<Op>, t: int)
    requires Inv(cfg, w, t) && Monotone(ops, t)
    ensures forall key, a :: RateWindow.InWindow(Granted(Run(cfg, w, ops).log, key), a, cfg.windowMs) <= cfg.burst
    decreases |ops|
  {
    if ops == [] {
      forall key, a ensures RateWindow.InWindow(Granted(w.log, key), a, cfg.windowMs) <= cfg.burst {
        assert KeyInv(cfg, Of(w.buckets, key), Granted(w.log, key), t);
      }
    } else {
      StepKeeps(cfg, w, ops[0], t);
      BurstPerWindow(cfg, Step(cfg, w, ops[0]), ops[1..], TimeOf(ops[0], t));
    }
  }

  // ----- backoff -----

  function AfterTakes(cfg: Config, b: Bucket, times: seq<int>): Bucket
    decreases |times|
  {
    if times == [] then b else AfterTakes(cfg, Take(cfg, b, times[0]).bucket, times[1..])
  }

  /** The answers to a bucket's attempts, in order. */
  function Answers(cfg: Config, b: Bucket, times: seq<int>): seq<Option<int>>
    decreases |times|
  {
    if times == [] then [] else [Take(cfg, b, times[0]).wait] + Answers(cfg, Take(cfg, b, times[0]).bucket, times[1..])
  }

  /** The waits of the attempts that overflowed the window, leaving out those made while already blocked. */
  function Overflows(cfg: Config, b: Bucket, times: seq<int>): seq<int>
    decreases |times|
  {
    if times == [] then []
    else
      var t := Take(cfg, b, times[0]);
      var rest := Overflows(cfg, t.bucket, times[1..]);
      if times[0] >= b.blockedUntil && t.wait.Some? then [t.wait.value] + rest else rest
  }

  /** The nth overflow of a bucket waits min(base * 2^n, max), whatever attempts come between. */
  lemma {:induction false} NthOverflowWaits(cfg: Config, b: Bucket, times: seq<int>)
    ensures forall i | 0 <= i < |Overflows(cfg, b, times)| ::
              Overflows(cfg, b, times)[i] == Min(cfg.baseBackoffMs * Pow2(b.overflowCount + i), cfg.maxBackoffMs)
    ensures AfterTakes(cfg, b, times).overflowCount == b.overflowCount + |Overflows(cfg, b, times)|
    decreases |times|
  {
    if times != [] {
      NthOverflowWaits(cfg, Take(cfg, b, times[0]).bucket, times[1..]);
    }
  }

  // ----- what a key is told -----

  lemma {:induction false} RunKeeps(cfg: Config, w: World, ops: seq<Op>, t: int, now: int)
    requires Inv(cfg, w, t) && Monotone(ops, t) && Until(ops, t, now)
    ensures Inv(cfg, Run(cfg, w, ops), now)
    decreases |ops|
  {
    hide Step, Inv;
    if ops == [] {
      InvLater(cfg, w, t, now);
    } else {
      StepKeeps(cfg, w, ops[0], t);
      RunKeeps(cfg, Step(cfg, w, ops[0]), ops[1..], TimeOf(ops[0], t), now);
    }
  }

  lemma InvLater(cfg: Config, w: World, t: int, now: int)
    requires Inv(cfg, w, t) && t <= now
    ensures Inv(cfg, w, now)
  {
    forall key ensures KeyInv(cfg, Of(w.buckets, key), Granted(w.log, key), now) {
      LaterKeeps(cfg, Of(w.buckets, key), Granted(w.log, key), t, now);
    }
  }

  /** The run ends by `now`. */
  predicate Until(ops: seq<Op>, from: int, now: int)
    decreases |ops|
  {
    if ops == [] then from <= now else Until(ops[1..], TimeOf(ops[0], from), now)
  }

  const NOTHING := World(map[], map[])

  /**
   * After any run, an attempt is granted exactly when its key is not blocked and had fewer than `burst` grants in the
   * last windowMs since it was cleared; a blocked key is told how long it still is.
   */
  lemma GrantedExactlyWhen(cfg: Config, ops: seq<Op>, t: int, key: string, now: int)
    requires Monotone(ops, t) && Until(ops, t, now)
    ensures var w := Run(cfg, NOTHING, ops);
            var b, wait := Of(w.buckets, key), Take(cfg, Of(w.buckets, key), now).wait;
            && (wait.None? <==> now >= b.blockedUntil && RateWindow.InWindow(Granted(w.log, key), now - cfg.windowMs + 1, cfg.windowMs) < cfg.burst)
            && (now < b.blockedUntil ==> wait == Some(b.blockedUntil - now))
  {
    hide Run;
    forall k ensures KeyInv(cfg, Of(map[], k), Granted(map[], k), t) { }
    assert Inv(cfg, NOTHING, t);
    RunKeeps(cfg, NOTHING, ops, t, now);
    var w := Run(cfg, NOTHING, ops);
    assert KeyInv(cfg, Of(w.buckets, key), Granted(w.log, key), now);
    RateWindow.FreshIsLastWindow(Granted(w.log, key), now, cfg.windowMs);
  }

  /** Nothing clears the key, and everything happens before `until`. */
  predicate Within(ops: seq<Op>, key: string, until: int) {
    forall op | op in ops :: op != Reset(key) && (op.Reset? || op.now < until)
  }

  lemma {:induction false} BlockedStays(cfg: Config, w: World, ops: seq<Op>, key: string)
    requires key in w.buckets && Within(ops, key, w.buckets[key].blockedUntil)
    ensures var r := Run(cfg, w, ops); key in r.buckets && r.buckets[key] == w.buckets[key]
    decreases |ops|
  {
    if ops != [] {
      assert ops[0] in ops && forall op | op in ops[1..] :: op in ops;
      BlockedStays(cfg, Step(cfg, w, ops[0]), ops[1..], key);
    }
  }

  /**
   * A refusal stands: a key told to wait is refused, counting down, until just then, whatever it and others try and
   * whatever is swept meanwhile; and then it is blocked no longer.
   */
  lemma RefusalStands(cfg: Config, w: World, key: string, now: int, ops: seq<Op>, later: int)
    requires Take(cfg, Of(w.buckets, key), now).wait.Some?
    requires var until := now + Take(cfg, Of(w.buckets, key), now).wait.value; Within(ops, key, until)
    ensures var until := now + Take(cfg, Of(w.buckets, key), now).wait.value;
            var b := Of(Run(cfg, Step(cfg, w, Ask(key, now)), ops).buckets, key);
            && b.blockedUntil == until
            && (later < until ==> Take(cfg, b, later).wait == Some(until - later))
  {
    BlockedStays(cfg, Step(cfg, w, Ask(key, now)), ops, key);
  }

  /** An overflow waits min(base * 2^n, max), n being how often the key overflowed since it was cleared or swept; a grant waits nothing. */
  lemma OverflowCounts(cfg: Config, b: Bucket, now: int)
    ensures var r := Take(cfg, b, now);
            if now < b.blockedUntil then r.bucket == b
            else if r.wait.None? then r.bucket.overflowCount == b.overflowCount && r.bucket.blockedUntil == b.blockedUntil
            else r.bucket.overflowCount == b.overflowCount + 1
                 && r.wait.value == (if cfg.baseBackoffMs * Pow2(b.overflowCount) < cfg.maxBackoffMs then cfg.baseBackoffMs * Pow2(b.overflowCount) else cfg.maxBackoffMs)
                 && r.bucket.blockedUntil == now + r.wait.value
  {
  }

  /** A sweep forgets exactly the keys that are past their block and had no grant in the last windowMs, and touches no other. */
  lemma SweptExactlyWhen(cfg: Config, ops: seq<Op>, t: int, key: string, now: int)
    requires Monotone(ops, t) && Until(ops, t, now)
    ensures var w := Run(cfg, NOTHING, ops);
            var r := Step(cfg, w, SweepOp(now));
            && (key in r.buckets ==> key in w.buckets && r.buckets[key] == w.buckets[key])
            && (key in w.buckets ==>
                  (key !in r.buckets <==>
                     w.buckets[key].blockedUntil < now && RateWindow.InWindow(Granted(w.log, key), now - cfg.windowMs + 1, cfg.windowMs) == 0))
  {
    hide Run;
    forall k ensures KeyInv(cfg, Of(map[], k), Granted(map[], k), t) { }
    RunKeeps(cfg, NOTHING, ops, t, now);
    var w := Run(cfg, NOTHING, ops);
    assert KeyInv(cfg, Of(w.buckets, key), Granted(w.log, key), now);
    RateWindow.FreshIsLastWindow(Granted(w.log, key), now, cfg.windowMs);
    if key in w.buckets { RateWindow.StaleExactlyWhen(w.buckets[key].hits, now, cfg.windowMs); }
  }

  /** Clearing a key gives it its whole burst back, at once, and leaves every other key alone. */
  lemma ClearedIsNew(cfg: Config, w: World, key: string, now: int)
    requires now >= 0
    ensures var r := Step(cfg, w, Reset(key));
            && (Take(cfg, Of(r.buckets, key), now).wait.None? <==> cfg.burst > 0) && Granted(r.log, key) == []
            && forall k | k != key :: Of(r.buckets, k) == Of(w.buckets, k) && Granted(r.log, k) == Granted(w.log, k)
  {
  }

  // ----- what a sweep forgets -----

  predicate Sorted(times: seq<int>, from: int) {
    times == [] || (from <= times[0] && Sorted(times[1..], times[0]))
  }

  predicate SameBackoff(cfg: Config, i: nat, j: nat, n: nat) { Backoff(cfg, i + n) == Backoff(cfg, j + n) }

  /** From now on the two buckets answer alike. */
  ghost predicate Alike(cfg: Config, a: Bucket, b: Bucket, now: int) {
    && (forall t | now <= t :: RateWindow.Fresh(a.hits, t, cfg.windowMs) == RateWindow.Fresh(b.hits, t, cfg.windowMs))
    && (a.blockedUntil == b.blockedUntil || (a.blockedUntil <= now && b.blockedUntil <= now))
    && (forall n: nat :: SameBackoff(cfg, a.overflowCount, b.overflowCount, n))
  }

  lemma TakeAlike(cfg: Config, a: Bucket, b: Bucket, now: int, t: int)
    requires Alike(cfg, a, b, now) && now <= t
    ensures Take(cfg, a, t).wait == Take(cfg, b, t).wait && Alike(cfg, Take(cfg, a, t).bucket, Take(cfg, b, t).bucket, t)
  {
    assert SameBackoff(cfg, a.overflowCount, b.overflowCount, 0);
    var x, y := Take(cfg, a, t).bucket, Take(cfg, b, t).bucket;
    if t >= a.blockedUntil && t >= b.blockedUntil {
      var f, g := RateWindow.Fresh(a.hits, t, cfg.windowMs), RateWindow.Fresh(b.hits, t, cfg.windowMs);
      assert f == g;
      forall n: nat ensures SameBackoff(cfg, x.overflowCount, y.overflowCount, n) {
        assert SameBackoff(cfg, a.overflowCount, b.overflowCount, n);
        assert SameBackoff(cfg, a.overflowCount, b.overflowCount, n + 1);
      }
      forall later | t <= later
        ensures RateWindow.Fresh(x.hits, later, cfg.windowMs) == RateWindow.Fresh(y.hits, later, cfg.windowMs)
      { }
    }
  }

  lemma {:induction false} AlikeAnswers(cfg: Config, a: Bucket, b: Bucket, now: int, times: seq<int>)
    requires Alike(cfg, a, b, now) && Sorted(times, now)
    ensures Answers(cfg, a, times) == Answers(cfg, b, times)
    decreases |times|
  {
    if times != [] {
      TakeAlike(cfg, a, b, now, times[0]);
      AlikeAnswers(cfg, Take(cfg, a, times[0]).bucket, Take(cfg, b, times[0]).bucket, times[0], times[1..]);
    }
  }

  /** Nothing distinguishes the backoff after k overflows from the backoff of a new bucket. */
  predicate BackoffIsFlat(cfg: Config, k: nat) {
    k == 0 || cfg.baseBackoffMs == 0 || cfg.baseBackoffMs >= cfg.maxBackoffMs
  }

  lemma FlatBackoff(cfg: Config, k: nat, n: nat)
    requires BackoffIsFlat(cfg, k)
    ensures Backoff(cfg, k + n) == Backoff(cfg, n)
  {
    if cfg.baseBackoffMs >= cfg.maxBackoffMs {
      assert cfg.baseBackoffMs * Pow2(k + n) >= cfg.baseBackoffMs && cfg.baseBackoffMs * Pow2(n) >= cfg.baseBackoffMs;
    }
  }

  lemma SteepBackoff(cfg: Config, k: nat)
    requires !BackoffIsFlat(cfg, k)
    ensures Backoff(cfg, k) != Backoff(cfg, 0)
  {
    assert Pow2(k) >= 2 by { assert Pow2(k) == 2 * Pow2(k - 1); }
    assert cfg.baseBackoffMs * Pow2(k) >= cfg.baseBackoffMs * 2;
  }

  lemma FillOne(cfg: Config, b: Bucket, now: int)
    requires cfg.windowMs > 0 && b.blockedUntil <= now && |RateWindow.Fresh(b.hits, now, cfg.windowMs)| < cfg.burst
    ensures var r := Take(cfg, b, now).bucket;
            && r.blockedUntil == b.blockedUntil && r.overflowCount == b.overflowCount
            && |RateWindow.Fresh(r.hits, now, cfg.windowMs)| == |RateWindow.Fresh(b.hits, now, cfg.windowMs)| + 1
  {
    RateWindow.FreshTwice(b.hits, now, now, cfg.windowMs);
    RateWindow.FreshSnoc(RateWindow.Fresh(b.hits, now, cfg.windowMs), now, now, cfg.windowMs);
  }

  /** n attempts at one moment, which fill the window and no more. */
  lemma {:induction false} Filling(cfg: Config, b: Bucket, now: int, n: nat)
    requires cfg.windowMs > 0 && b.blockedUntil <= now && |RateWindow.Fresh(b.hits, now, cfg.windowMs)| + n <= cfg.burst
    ensures var r := AfterTakes(cfg, b, seq(n, i => now));
            && r.blockedUntil == b.blockedUntil && r.overflowCount == b.overflowCount
            && |RateWindow.Fresh(r.hits, now, cfg.windowMs)| == |RateWindow.Fresh(b.hits, now, cfg.windowMs)| + n
    decreases n
  {
    if n > 0 {
      hide RateWindow.Fresh, Take;
      var ts := seq(n, i => now);
      assert ts[1..] == seq(n - 1, i => now);
      FillOne(cfg, b, now);
      Filling(cfg, Take(cfg, b, now).bucket, now, n - 1);
    }
  }

  lemma {:induction false} LastAnswer(cfg: Config, b: Bucket, times: seq<int>, t: int)
    ensures Answers(cfg, b, times + [t]) == Answers(cfg, b, times) + [Take(cfg, AfterTakes(cfg, b, times), t).wait]
    decreases |times|
  {
    var all := times + [t];
    if times == [] {
      assert all[1..] == [];
    } else {
      assert all[0] == times[0] && all[1..] == times[1..] + [t];
      LastAnswer(cfg, Take(cfg, b, times[0]).bucket, times[1..], t);
    }
  }

  lemma {:induction false} AnswerCount(cfg: Config, b: Bucket, times: seq<int>)
    ensures |Answers(cfg, b, times)| == |times|
    decreases |times|
  {
    if times != [] { AnswerCount(cfg, Take(cfg, b, times[0]).bucket, times[1..]); }
  }

  lemma {:induction false} SortedConstant(now: int, n: nat)
    ensures Sorted(seq(n, i => now), now)
    decreases n
  {
    if n > 0 {
      assert seq(n, i => now)[1..] == seq(n - 1, i => now);
      SortedConstant(now, n - 1);
    }
  }

  /** The attempts that tell a swept bucket from a kept one: fill the window, then overflow it. */
  lemma OverflowTellsThemApart(cfg: Config, b: Bucket, now: int)
    requires cfg.windowMs > 0 && Idle(cfg, b, now) && now >= 0 && !BackoffIsFlat(cfg, b.overflowCount)
    ensures Sorted(seq(cfg.burst, i => now) + [now], now)
    ensures Answers(cfg, b, seq(cfg.burst, i => now) + [now]) != Answers(cfg, NEW_BUCKET, seq(cfg.burst, i => now) + [now])
  {
    var ts := seq(cfg.burst, i => now);
    SortedConstant(now, cfg.burst + 1);
    assert ts + [now] == seq(cfg.burst + 1, i => now);
    RateWindow.StaleHasNoFresh(b.hits, now, now, cfg.windowMs);
    Filling(cfg, b, now, cfg.burst);
    Filling(cfg, NEW_BUCKET, now, cfg.burst);
    LastAnswer(cfg, b, ts, now);
    LastAnswer(cfg, NEW_BUCKET, ts, now);
    AnswerCount(cfg, b, ts);
    AnswerCount(cfg, NEW_BUCKET, ts);
    SteepBackoff(cfg, b.overflowCount);
    var x, y := Take(cfg, AfterTakes(cfg, b, ts), now).wait, Take(cfg, AfterTakes(cfg, NEW_BUCKET, ts), now).wait;
    assert x == Some(Backoff(cfg, b.overflowCount)) && y == Some(Backoff(cfg, 0));
    assert Answers(cfg, b, ts + [now])[|ts|] == x && Answers(cfg, NEW_BUCKET, ts + [now])[|ts|] == y;
  }

  /**
   * A sweep that drops an idle bucket also forgets how often it overflowed. Later answers are the same for
   * every future exactly when that count is 0 or the backoff is flat; otherwise the penalty starts over.
   */
  lemma SweepIsInvisibleExactlyWhen(cfg: Config, b: Bucket, now: int)
    requires cfg.windowMs > 0 && Idle(cfg, b, now) && now >= 0
    ensures (forall times | Sorted(times, now) :: Answers(cfg, b, times) == Answers(cfg, NEW_BUCKET, times))
            <==> BackoffIsFlat(cfg, b.overflowCount)
  {
    if BackoffIsFlat(cfg, b.overflowCount) {
      forall t | now <= t ensures RateWindow.Fresh(b.hits, t, cfg.windowMs) == RateWindow.Fresh([], t, cfg.windowMs) {
        RateWindow.StaleHasNoFresh(b.hits, now, t, cfg.windowMs);
      }
      forall n: nat ensures SameBackoff(cfg, b.overflowCount, 0, n) { FlatBackoff(cfg, b.overflowCount, n); }
      forall times | Sorted(times, now) ensures Answers(cfg, b, times) == Answers(cfg, NEW_BUCKET, times) {
        AlikeAnswers(cfg, b, NEW_BUCKET, now, times);
      }
    } else {
      OverflowTellsThemApart(cfg, b, now);
    }
  }
}
