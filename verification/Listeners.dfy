/** How much a connection's listeners are handed (src/main/net/connection.ts:170-190): all, nothing, or their fill. */
module Listeners {
  import opened Bytes
  import opened Connections

  /** How many more events a kind's listeners take; None when there is no end to it. */
  function Appetite(m: Mode): Option<nat> {
    match m
    case Nobody => Some(0)
    case For(n) => Some(n)
    case Forever => None
  }

  /** Of so many events, how many they take. */
  function Share(m: Mode, n: nat): nat {
    if m == Forever then n else if Appetite(m).value < n then Appetite(m).value else n
  }

  /** An appetite after taking n events of it. */
  predicate Sated(m: Mode, r: Mode, n: nat) {
    if m == Forever then r == Forever else n <= Appetite(m).value && Appetite(r) == Some(Appetite(m).value - n)
  }

  /** A listener that joins others takes as long as the hungriest of them, and only its own kind. */
  lemma AttachAdds(c: Conn, codec: Codec, k: Kind, m: Mode, other: Kind)
    ensures var r := Step(c, codec, Attach(k, m));
            var was := Appetite(PostOf(c.box, k).mode);
            && Appetite(PostOf(r.box, k).mode)
               == (if was.None? || Appetite(m).None? then None else Some(if was.value < Appetite(m).value then Appetite(m).value else was.value))
            && (other != k ==> PostOf(r.box, other) == PostOf(c.box, other))
            && r.box.handed == c.box.handed && r.box.inbox == c.box.inbox
  {
  }

  /** One event goes to a listener that still takes one, and is held otherwise. */
  lemma DeliveryFeeds(l: Lane, x: Item)
    ensures var r, n := LaneDeliver(l, x), Share(l.post.mode, 1);
            && r.handed == l.handed + [x][..n] && r.held == l.held + [x][n..] && Sated(l.post.mode, r.post.mode, n)
  {
  }

  /** A flush hands out the oldest events, as many as are still taken, and holds the rest. */
  lemma {:induction false} FlushFeeds(l: Lane, held: seq<Item>)
    ensures var r, n := LaneFlush(l, held), Share(l.post.mode, |held|);
            && r.handed == l.handed + held[..n] && r.held == l.held + held[n..] && Sated(l.post.mode, r.post.mode, n)
            && (l.post.mode == Nobody ==> r.post.mode == Nobody)
    decreases |held|
  {
    if held == [] {
      assert l.handed + [] == l.handed && l.held + [] == l.held;
    } else {
      var x, rest := held[0], held[1..];
      DeliveryFeeds(l, x);
      if Hungry(l.post.mode) {
        var m := LaneEmit(l, x, false);
        FlushFeeds(m, rest);
        ShareOfOneMore(l.post.mode, m.post.mode, |rest|);
        Split(l.handed, x, rest, Share(m.post.mode, |rest|));
      } else {
        var m := l.(held := l.held + [x]);
        FlushFeeds(m, rest);
        assert l.held + [x] + rest == l.held + held && rest[0..] == rest && held[0..] == held;
        assert l.handed + rest[..0] == l.handed && l.handed + held[..0] == l.handed;
      }
    }
  }

  /** Taking one leaves an appetite one smaller. */
  lemma ShareOfOneMore(m: Mode, r: Mode, n: nat)
    requires Hungry(m) && r == After(m)
    ensures Share(m, n + 1) == Share(r, n) + 1
    ensures forall q: Mode :: Sated(r, q, Share(r, n)) ==> Sated(m, q, Share(r, n) + 1)
  {
  }

  lemma Split(handed: seq<Item>, x: Item, rest: seq<Item>, n: nat)
    requires n <= |rest|
    ensures handed + [x] + rest[..n] == handed + ([x] + rest)[..n + 1] && rest[n..] == ([x] + rest)[n + 1..]
  {
  }

  /**
   * A listener for n events, attached where nobody listened, is handed the n oldest held of its kind, or all there are,
   * at the flush that follows; it then takes only what is missing of the n.
   */
  lemma ListenerTakesItsFill(c: Conn, codec: Codec, k: Kind, n: nat)
    requires PostOf(c.box, k).mode == Nobody
    ensures var r := Step(Step(c, codec, Attach(k, For(n))), codec, Flush);
            var held := Only(k, c.box.inbox);
            var taken := if n < |held| then n else |held|;
            && Only(k, r.box.handed) == Only(k, c.box.handed) + held[..taken] && Only(k, r.box.inbox) == held[taken..]
            && Appetite(PostOf(r.box, k).mode) == Some(n - taken)
  {
    var b := Step(c, codec, Attach(k, For(n))).box;
    FlushLane(b.(inbox := []), b.inbox, k);
    FlushFeeds(LaneOf(b.(inbox := []), k), Only(k, b.inbox));
    hide FlushAll, LaneFlush;
  }

  // ----- a listener that stays -----

  lemma {:induction false} FlushListens(b: Mailbox, held: seq<Item>, k: Kind)
    requires PostOf(b, k).mode == Forever
    ensures PostOf(FlushAll(b, held), k).mode == Forever
    decreases |held|
  {
    if held != [] {
      if Hungry(PostOf(b, held[0].kind).mode) { FlushListens(Emit(b, held[0], false), held[1..], k); }
      else { FlushListens(b.(inbox := b.inbox + [held[0]]), held[1..], k); }
    }
  }

  lemma DeliverListens(b: Mailbox, x: Item, k: Kind)
    requires PostOf(b, k).mode == Forever
    ensures PostOf(Deliver(b, x), k).mode == Forever
  {
    hide Only;
  }

  lemma {:induction false} DrainListens(c: Conn, codec: Codec, early: seq<Held>, k: Kind)
    requires PostOf(c.box, k).mode == Forever
    ensures PostOf(Drain(c, codec, early).box, k).mode == Forever
    decreases |early|
  {
    hide Deliver;
    if early != [] && codec.open(c.accepted, early[0].frame).Some? {
      DeliverListens(c.box, Item(Message, early[0].at, codec.open(c.accepted, early[0].frame).value), k);
      DrainListens(Open(c, codec, early[0]), codec, early[1..], k);
    }
  }

  lemma StepListens(c: Conn, codec: Codec, ev: Event, k: Kind)
    requires PostOf(c.box, k).mode == Forever && ev != Detach(k)
    ensures PostOf(Step(c, codec, ev).box, k).mode == Forever
  {
    hide Deliver, Drain, FlushAll;
    match ev
    case Text(data) =>
      if codec.parse(data).Some? { DeliverListens(c.box, Item(Handshake, c.count, codec.parse(data).value), k); }
    case Binary(frame) =>
      if codec.open(c.accepted, frame).Some? { DeliverListens(c.box, Item(Message, c.count, codec.open(c.accepted, frame).value), k); }
    case Upgrade => DrainListens(c.(upgraded := true, pending := []), codec, c.pending, k);
    case Flush => FlushListens(c.box.(inbox := []), c.box.inbox, k);
    case _ =>
  }

  lemma {:induction false} RunListens(evs: seq<Event>, codec: Codec, k: Kind, i: nat)
    requires i < |evs| && evs[i] == Attach(k, Forever) && forall j | i < j < |evs| :: evs[j] != Detach(k)
    ensures PostOf(Run(evs, codec).box, k).mode == Forever
    decreases |evs|
  {
    hide Step;
    var init, ev := evs[..|evs| - 1], evs[|evs| - 1];
    if i == |init| {
      AttachAdds(Run(init, codec), codec, k, Forever, k);
    } else {
      RunListens(init, codec, k, i);
      StepListens(Run(init, codec), codec, ev, k);
    }
  }

  /**
   * Whoever attaches for good and does not detach is handed every arrival of its kind, decoded, once, in order, from
   * the first on: whenever it attached, whatever placement the upgrade had, if no delivery fell into a gap.
   */
  lemma StayingListenerHearsAll(evs: seq<Event>, codec: Codec, k: Kind, i: nat)
    requires WellFormed(evs, codec) && Prompt(evs) && !FlushOwed(evs)
    requires i < |evs| && evs[i] == Attach(k, Forever) && forall j | i < j < |evs| :: evs[j] != Detach(k)
    ensures Only(k, Run(evs, codec).box.handed) == Reference(evs, codec, k)
  {
    hide WellFormed, Prompt, FlushOwed, Run, Reference;
    RunListens(evs, codec, k, i);
    TimingIsInvisible(evs, codec, k);
  }

  // ----- nobody listening -----

  lemma DeliverWaits(b: Mailbox, x: Item, k: Kind)
    requires PostOf(b, k).mode == Nobody
    ensures PostOf(Deliver(b, x), k).mode == Nobody && Only(k, Deliver(b, x).handed) == Only(k, b.handed)
  {
    DeliverLane(b, x, k);
    hide Deliver, Only;
    assert LaneOf(Deliver(b, x), k).handed == LaneOf(b, k).handed;
  }

  lemma {:induction false} DrainWaits(c: Conn, codec: Codec, early: seq<Held>, k: Kind)
    requires PostOf(c.box, k).mode == Nobody
    ensures var r := Drain(c, codec, early).box; PostOf(r, k).mode == Nobody && Only(k, r.handed) == Only(k, c.box.handed)
    decreases |early|
  {
    hide Deliver;
    if early != [] && codec.open(c.accepted, early[0].frame).Some? {
      DeliverWaits(c.box, Item(Message, early[0].at, codec.open(c.accepted, early[0].frame).value), k);
      DrainWaits(Open(c, codec, early[0]), codec, early[1..], k);
    }
  }

  lemma StepWaits(c: Conn, codec: Codec, ev: Event, k: Kind)
    requires PostOf(c.box, k).mode == Nobody && !(ev.Attach? && ev.kind == k)
    ensures var r := Step(c, codec, ev).box; PostOf(r, k).mode == Nobody && Only(k, r.handed) == Only(k, c.box.handed)
  {
    hide Deliver, Drain, FlushAll, Only;
    match ev
    case Text(data) =>
      if codec.parse(data).Some? { DeliverWaits(c.box, Item(Handshake, c.count, codec.parse(data).value), k); }
    case Binary(frame) =>
      if codec.open(c.accepted, frame).Some? { DeliverWaits(c.box, Item(Message, c.count, codec.open(c.accepted, frame).value), k); }
    case Upgrade => DrainWaits(c.(upgraded := true, pending := []), codec, c.pending, k);
    case Flush =>
      var b, held := c.box.(inbox := []), Only(k, c.box.inbox);
      FlushLane(b, c.box.inbox, k);
      FlushFeeds(LaneOf(b, k), held);
      assert LaneOf(b, k).handed + held[..0] == Only(k, c.box.handed);
      assert LaneOf(FlushAll(b, c.box.inbox), k).handed == Only(k, c.box.handed);
    case _ =>
  }

  /** Once its listeners are detached, and until others attach, nobody is handed anything of a kind. */
  lemma {:induction false} DetachedHearsNothing(evs: seq<Event>, codec: Codec, k: Kind, i: nat)
    requires i < |evs| && evs[i] == Detach(k) && forall j | i < j < |evs| :: !(evs[j].Attach? && evs[j].kind == k)
    ensures PostOf(Run(evs, codec).box, k).mode == Nobody && Only(k, Run(evs, codec).box.handed) == Only(k, Run(evs[..i], codec).box.handed)
    decreases |evs|
  {
    hide Step, Only;
    var init, ev := evs[..|evs| - 1], evs[|evs| - 1];
    if i == |init| {
      DetachEnds(Run(init, codec), codec, k);
    } else {
      assert init[..i] == evs[..i];
      DetachedHearsNothing(init, codec, k, i);
      StepWaits(Run(init, codec), codec, ev, k);
    }
  }

  lemma DetachEnds(c: Conn, codec: Codec, k: Kind)
    ensures var r := Step(c, codec, Detach(k)).box; PostOf(r, k).mode == Nobody && r.handed == c.box.handed
  {
  }
}
