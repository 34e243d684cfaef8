/**
 * When things happen on a control connection (src/main/net/connection.ts): frames that arrive before the
 * keys, events decoded before anyone listens, listeners that come and go.
 */
module Connections {
  import opened Bytes

  const MAX_EARLY: nat := 64

  datatype Kind = Handshake | Message

  /** The nth arrival, decoded. */
  datatype Item = Item(kind: Kind, at: nat, body: Buffer)

  datatype Held = Held(at: nat, frame: Buffer)

  /** How many more events the listeners of a kind will take before the last of them detaches. */
  datatype Mode = Nobody | For(more: nat) | Forever

  /** The text parser, and the frame decoder: what it makes of a frame after having accepted others. */
  datatype Codec = Codec(parse: Buffer -> Option<Buffer>, open: (seq<Buffer>, Buffer) -> Option<Buffer>)

  datatype Event =
    | Text(data: Buffer)
    | Binary(frame: Buffer)
    | Upgrade
    | Attach(kind: Kind, mode: Mode)
    | Detach(kind: Kind)
    | Flush

  /** The listeners of a kind, and whether an item ever reached them past an older one of its kind still held. */
  datatype Post = Post(mode: Mode, overtook: bool)

  /** `delivered` lists every item handed to `#deliver`, and `handed` what listeners received. */
  datatype Mailbox = Mailbox(inbox: seq<Item>, handed: seq<Item>, delivered: seq<Item>, handshakes: Post, messages: Post)

  datatype Conn = Conn(upgraded: bool, broken: bool, count: nat, pending: seq<Held>, accepted: seq<Buffer>, box: Mailbox)

  const NEW_CONN := Conn(false, false, 0, [], [], Mailbox([], [], [], Post(Nobody, false), Post(Nobody, false)))

  function PostOf(b: Mailbox, k: Kind): Post { if k == Handshake then b.handshakes else b.messages }

  function WithPost(b: Mailbox, k: Kind, p: Post): Mailbox {
    if k == Handshake then b.(handshakes := p) else b.(messages := p)
  }

  predicate Hungry(m: Mode) { m == Forever || (m.For? && m.more > 0) }

  function After(m: Mode): Mode { if m.For? && m.more > 1 then For(m.more - 1) else if m.For? then Nobody else m }

  /** A second listener joins the first; they stop when the hungrier one does. */
  function Both(a: Mode, b: Mode): Mode {
    if a == Forever || b == Forever then Forever
    else if a == Nobody then b
    else if b == Nobody then a
    else if a.more < b.more then b
    else a
  }

  function Only(k: Kind, s: seq<Item>): seq<Item> {
    if s == [] then []
    else if s[|s| - 1].kind == k then Only(k, s[..|s| - 1]) + [s[|s| - 1]]
    else Only(k, s[..|s| - 1])
  }

  /** Hands the item to whoever listens for its kind. */
  function Emit(b: Mailbox, x: Item, late: bool): Mailbox {
    var p := PostOf(b, x.kind);
    WithPost(b, x.kind, Post(After(p.mode), p.overtook || late)).(handed := b.handed + [x])
  }

  function Deliver(b: Mailbox, x: Item): Mailbox {
    var b' := b.(delivered := b.delivered + [x]);
    if Hungry(PostOf(b, x.kind).mode) then Emit(b', x, Only(x.kind, b.inbox) != [])
    else b'.(inbox := b.inbox + [x])
  }

  /** A flush of the held items: each goes out if someone listens by then, and is held again otherwise. */
  function FlushAll(b: Mailbox, held: seq<Item>): Mailbox
    decreases |held|
  {
    if held == [] then b
    else if Hungry(PostOf(b, held[0].kind).mode) then FlushAll(Emit(b, held[0], false), held[1..])
    else FlushAll(b.(inbox := b.inbox + [held[0]]), held[1..])
  }

  function Open(c: Conn, codec: Codec, h: Held): Conn {
    var body := codec.open(c.accepted, h.frame);
    if body.None? then c.(broken := true)
    else c.(accepted := c.accepted + [h.frame], box := Deliver(c.box, Item(Message, h.at, body.value)))
  }

  function Drain(c: Conn, codec: Codec, early: seq<Held>): Conn
    decreases |early|
  {
    if early == [] then c
    else if codec.open(c.accepted, early[0].frame).None? then c.(broken := true)
    else Drain(Open(c, codec, early[0]), codec, early[1..])
  }

  /**
   * A refused frame breaks the connection, and so does an early frame that does not open during the upgrade; whoever
   * called then closes the transport, but what the transport still delivers is handled all the same.
   */
  function Step(c: Conn, codec: Codec, ev: Event): Conn {
    match ev
    case Text(data) =>
      if c.upgraded then c.(broken := true)
      else
        var msg := codec.parse(data);
        if msg.None? then c.(broken := true)
        else c.(count := c.count + 1, box := Deliver(c.box, Item(Handshake, c.count, msg.value)))
    case Binary(frame) =>
      if c.upgraded then Open(c.(count := c.count + 1), codec, Held(c.count, frame))
      else if |c.pending| < MAX_EARLY then c.(count := c.count + 1, pending := c.pending + [Held(c.count, frame)])
      else c.(broken := true)
    case Upgrade => if c.upgraded then c else Drain(c.(upgraded := true, pending := []), codec, c.pending)
    case Attach(k, mode) =>
      var p := PostOf(c.box, k);
      c.(box := WithPost(c.box, k, p.(mode := Both(p.mode, mode))))
    case Detach(k) => c.(box := WithPost(c.box, k, PostOf(c.box, k).(mode := Nobody)))
    case Flush => c.(box := FlushAll(c.box.(inbox := []), c.box.inbox))
  }

  function Run(evs: seq<Event>, codec: Codec): Conn {
    if evs == [] then NEW_CONN else Step(Run(evs[..|evs| - 1], codec), codec, evs[|evs| - 1])
  }

  // ----- the reference: what the arrivals decode to, whenever anything else happens -----

  function Arrivals(evs: seq<Event>): nat {
    if evs == [] then 0
    else Arrivals(evs[..|evs| - 1]) + if evs[|evs| - 1].Text? || evs[|evs| - 1].Binary? then 1 else 0
  }

  function Parsed(evs: seq<Event>, codec: Codec): seq<Item> {
    if evs == [] then []
    else
      var init, last := evs[..|evs| - 1], evs[|evs| - 1];
      if last.Text? && codec.parse(last.data).Some? then Parsed(init, codec) + [Item(Handshake, Arrivals(init), codec.parse(last.data).value)]
      else Parsed(init, codec)
  }

  function Frames(evs: seq<Event>): seq<Held> {
    if evs == [] then []
    else
      var init, last := evs[..|evs| - 1], evs[|evs| - 1];
      if last.Binary? then Frames(init) + [Held(Arrivals(init), last.frame)] else Frames(init)
  }

  function Bare(hs: seq<Held>): seq<Buffer> {
    if hs == [] then [] else Bare(hs[..|hs| - 1]) + [hs[|hs| - 1].frame]
  }

  /** Every frame opens, given those before it. */
  predicate AllOpen(hs: seq<Held>, codec: Codec) {
    hs == [] || (AllOpen(hs[..|hs| - 1], codec) && codec.open(Bare(hs[..|hs| - 1]), hs[|hs| - 1].frame).Some?)
  }

  function Decoded(hs: seq<Held>, codec: Codec): seq<Item>
    requires AllOpen(hs, codec)
  {
    if hs == [] then []
    else
      var init, last := hs[..|hs| - 1], hs[|hs| - 1];
      Decoded(init, codec) + [Item(Message, last.at, codec.open(Bare(init), last.frame).value)]
  }

  // ----- selecting a kind -----

  lemma OnlySnoc(k: Kind, s: seq<Item>, x: Item)
    ensures Only(k, s + [x]) == if x.kind == k then Only(k, s) + [x] else Only(k, s)
  {
    assert (s + [x])[..|s|] == s;
  }

  lemma {:induction false} OnlyCons(k: Kind, x: Item, s: seq<Item>)
    ensures Only(k, [x] + s) == if x.kind == k then [x] + Only(k, s) else Only(k, s)
  {
    if s == [] {
      assert [x] + s == [] + [x];
      OnlySnoc(k, [], x);
    } else {
      var init, last := s[..|s| - 1], s[|s| - 1];
      assert [x] + s == ([x] + init) + [last];
      OnlyCons(k, x, init);
      OnlySnoc(k, [x] + init, last);
      assert s == init + [last];
      OnlySnoc(k, init, last);
    }
  }

  // ----- one kind's lane -----

  /** Nothing of a kind is held while someone listens for it. */
  ghost predicate Clear(l: Lane) { Hungry(l.post.mode) ==> l.held == [] }

  /** A mailbox as one kind of event sees it. */
  datatype Lane = Lane(handed: seq<Item>, held: seq<Item>, post: Post)

  function LaneOf(b: Mailbox, k: Kind): Lane { Lane(Only(k, b.handed), Only(k, b.inbox), PostOf(b, k)) }

  function LaneEmit(l: Lane, x: Item, late: bool): Lane {
    l.(handed := l.handed + [x], post := Post(After(l.post.mode), l.post.overtook || late))
  }

  function LaneDeliver(l: Lane, x: Item): Lane {
    if Hungry(l.post.mode) then LaneEmit(l, x, l.held != []) else l.(held := l.held + [x])
  }

  function LaneFlush(l: Lane, held: seq<Item>): Lane
    decreases |held|
  {
    if held == [] then l
    else if Hungry(l.post.mode) then LaneFlush(LaneEmit(l, held[0], false), held[1..])
    else LaneFlush(l.(held := l.held + [held[0]]), held[1..])
  }

  /** What the kind's listeners have been handed, followed by what is still held for them. */
  function Seen(l: Lane): seq<Item> { l.handed + l.held }

  lemma EmitLane(b: Mailbox, x: Item, late: bool, k: Kind)
    ensures LaneOf(Emit(b, x, late), k) == if x.kind == k then LaneEmit(LaneOf(b, k), x, late) else LaneOf(b, k)
    ensures Emit(b, x, late).delivered == b.delivered
  {
    OnlySnoc(k, b.handed, x);
    hide Only;
  }

  lemma HoldLane(b: Mailbox, x: Item, k: Kind)
    ensures LaneOf(b.(inbox := b.inbox + [x]), k)
            == if x.kind == k then LaneOf(b, k).(held := LaneOf(b, k).held + [x]) else LaneOf(b, k)
  {
    OnlySnoc(k, b.inbox, x);
    hide Only;
  }

  lemma DeliverLane(b: Mailbox, x: Item, k: Kind)
    ensures LaneOf(Deliver(b, x), k) == if x.kind == k then LaneDeliver(LaneOf(b, k), x) else LaneOf(b, k)
    ensures Deliver(b, x).delivered == b.delivered + [x]
  {
    var b' := b.(delivered := b.delivered + [x]);
    EmitLane(b', x, Only(x.kind, b.inbox) != [], k);
    HoldLane(b', x, k);
    hide Only, Emit;
  }

  lemma {:induction false} FlushLane(b: Mailbox, held: seq<Item>, k: Kind)
    ensures LaneOf(FlushAll(b, held), k) == LaneFlush(LaneOf(b, k), Only(k, held))
    ensures FlushAll(b, held).delivered == b.delivered
    decreases |held|
  {
    if held != [] {
      var x, rest := held[0], held[1..];
      assert held == [x] + rest;
      OnlyCons(k, x, rest);
      assert x.kind == k ==> Only(k, held)[0] == x && Only(k, held)[1..] == Only(k, rest);
      if Hungry(PostOf(b, x.kind).mode) {
        EmitLane(b, x, false, k);
        FlushLane(Emit(b, x, false), rest, k);
      } else {
        HoldLane(b, x, k);
        FlushLane(b.(inbox := b.inbox + [x]), rest, k);
      }
    } else {
      assert Only(k, held) == [];
    }
  }

  /** A flush loses nothing, keeps the order, and leaves nothing held for a kind that still listens. */
  lemma {:induction false} LaneFlushKeeps(l: Lane, held: seq<Item>)
    requires Clear(l)
    ensures var r := LaneFlush(l, held);
            Seen(r) == Seen(l) + held && r.post.overtook == l.post.overtook && Clear(r) && (Hungry(r.post.mode) ==> Hungry(l.post.mode))
    decreases |held|
  {
    if held != [] {
      assert held == [held[0]] + held[1..];
      if Hungry(l.post.mode) {
        LaneFlushKeeps(LaneEmit(l, held[0], false), held[1..]);
      } else {
        LaneFlushKeeps(l.(held := l.held + [held[0]]), held[1..]);
      }
    }
  }

  // ----- order -----

  ghost predicate Ascending(s: seq<Item>, below: nat) {
    && (forall i, j | 0 <= i < j < |s| :: s[i].at < s[j].at)
    && (forall i | 0 <= i < |s| :: s[i].at < below)
  }

  /** What is seen is what was delivered, each item once, and in that order exactly when nothing was overtaken. */
  ghost predicate LaneInv(l: Lane, delivered: seq<Item>, below: nat) {
    && (Seen(l) == delivered <==> !l.post.overtook)
    && Permutes(Seen(l), delivered)
    && Ascending(delivered, below)
  }

  ghost predicate Permutes(a: seq<Item>, b: seq<Item>) { multiset(a) == multiset(b) }

  lemma PermutesInsert(a: seq<Item>, x: Item, b: seq<Item>, d: seq<Item>)
    requires Permutes(a + b, d)
    ensures Permutes(a + [x] + b, d + [x])
  {
  }

  lemma PermutesIn(a: seq<Item>, b: seq<Item>)
    requires Permutes(a, b)
    ensures |a| == |b| && forall x | x in a :: x in b
  {
    assert |multiset(a)| == |a| && |multiset(b)| == |b|;
    forall x | x in a ensures x in b {
      assert x in multiset(a);
    }
  }

  /** Adding the newest item at the end keeps a match and its absence; adding it before others breaks it. */
  lemma InsertMatches(a: seq<Item>, x: Item, b: seq<Item>, d: seq<Item>)
    requires forall y | y in d :: y.at < x.at
    requires forall y | y in b :: y in d
    ensures a + [x] + b == d + [x] <==> b == [] && a == d
  {
    var whole := a + [x] + b;
    if whole == d + [x] {
      assert whole[|d|] == x && |whole| == |a| + 1 + |b|;
      assert |a| < |whole| && whole[|a|] == x;
      assert forall i | 0 <= i < |d| :: whole[i] == d[i] && d[i] in d;
      assert |a| == |d|;
      assert whole[..|a|] == a && (d + [x])[..|d|] == d;
    } else if b == [] {
      assert whole == a + [x];
    }
  }

  lemma AscendingSnoc(d: seq<Item>, x: Item, below: nat)
    requires Ascending(d, x.at) && x.at < below
    ensures Ascending(d + [x], below)
  {
  }

  lemma LaneDeliverKeeps(l: Lane, d: seq<Item>, x: Item, below: nat)
    requires LaneInv(l, d, x.at) && x.at < below
    ensures LaneInv(LaneDeliver(l, x), d + [x], below)
    ensures Clear(l) ==> Clear(LaneDeliver(l, x)) && LaneDeliver(l, x).post.overtook == l.post.overtook
  {
    PermutesIn(Seen(l), d);
    AscendingSnoc(d, x, below);
    forall y | y in d ensures y.at < x.at {
      var i :| 0 <= i < |d| && d[i] == y;
    }
    forall y | y in l.held ensures y in d {
      assert y in Seen(l);
    }
    LaneShape(l, x);
    hide Ascending, Permutes, LaneDeliver, Seen;
    var r := LaneDeliver(l, x);
    if Hungry(l.post.mode) {
      assert Permutes(l.handed + l.held, d);
      PermutesInsert(l.handed, x, l.held, d);
      InsertMatches(l.handed, x, l.held, d);
    } else {
      PermutesInsert(l.handed + l.held, x, [], d);
      InsertMatches(l.handed + l.held, x, [], d);
    }
  }

  lemma LaneShape(l: Lane, x: Item)
    ensures Seen(l) == l.handed + l.held && (l.held == [] ==> Seen(l) == l.handed) && l.handed + l.held + [] == Seen(l)
    ensures var r := LaneDeliver(l, x);
            if Hungry(l.post.mode) then
              Seen(r) == l.handed + [x] + l.held && r.post.overtook == (l.post.overtook || l.held != []) && r.held == l.held
            else
              Seen(r) == l.handed + l.held + [x] + [] && r.post == l.post
  {
  }

  lemma FlushedLane(b: Mailbox, k: Kind)
    ensures var l, r := LaneOf(b, k), LaneOf(FlushAll(b.(inbox := []), b.inbox), k);
            Seen(r) == Seen(l) && r.post.overtook == l.post.overtook && Clear(r)
    ensures FlushAll(b.(inbox := []), b.inbox).delivered == b.delivered
  {
    FlushLane(b.(inbox := []), b.inbox, k);
    LaneFlushKeeps(LaneOf(b.(inbox := []), k), Only(k, b.inbox));
  }

  /** One lane, with what was delivered to it. */
  ghost predicate BoxInv(b: Mailbox, k: Kind, items: seq<Item>, below: nat) {
    Only(k, b.delivered) == items && LaneInv(LaneOf(b, k), items, below)
  }

  lemma DeliverOwn(b: Mailbox, x: Item, items: seq<Item>, below: nat)
    requires BoxInv(b, x.kind, items, x.at) && x.at < below
    ensures BoxInv(Deliver(b, x), x.kind, items + [x], below)
    ensures Clear(LaneOf(b, x.kind)) ==>
              Clear(LaneOf(Deliver(b, x), x.kind)) && PostOf(Deliver(b, x), x.kind).overtook == PostOf(b, x.kind).overtook
  {
    hide Permutes;
    DeliverLane(b, x, x.kind);
    LaneDeliverKeeps(LaneOf(b, x.kind), items, x, below);
    OnlySnoc(x.kind, b.delivered, x);
    hide Only, Deliver, LaneDeliver, LaneInv;
  }

  lemma DeliverOther(b: Mailbox, x: Item, k: Kind)
    requires x.kind != k
    ensures LaneOf(Deliver(b, x), k) == LaneOf(b, k) && Only(k, Deliver(b, x).delivered) == Only(k, b.delivered)
  {
    DeliverLane(b, x, k);
    OnlySnoc(k, b.delivered, x);
  }

  // ----- draining the early frames -----

  /** The connection has opened exactly these frames, and its message lane has them. */
  ghost predicate Opens(c: Conn, codec: Codec, frames: seq<Held>, below: nat) {
    && AllOpen(frames, codec) && c.accepted == Bare(frames) && BoxInv(c.box, Message, Decoded(frames, codec), below)
  }

  ghost predicate InOrder(hs: seq<Held>, below: nat) {
    && (forall i, j | 0 <= i < j < |hs| :: hs[i].at < hs[j].at)
    && (forall i | 0 <= i < |hs| :: hs[i].at < below)
  }

  /** What opening frames leaves alone: everything but the message lane and the decoder. */
  ghost predicate SameElse(c: Conn, r: Conn) {
    && r.count == c.count && r.upgraded == c.upgraded && r.pending == c.pending
    && LaneOf(r.box, Handshake) == LaneOf(c.box, Handshake)
    && Only(Handshake, r.box.delivered) == Only(Handshake, c.box.delivered)
    && (Clear(LaneOf(c.box, Message)) ==> Clear(LaneOf(r.box, Message)) && r.box.messages.overtook == c.box.messages.overtook)
  }

  lemma OpenOne(c: Conn, codec: Codec, frames: seq<Held>, h: Held, below: nat)
    requires !c.broken && Opens(c, codec, frames, h.at) && h.at < below
    ensures var r := Open(c, codec, h);
            && (r.broken <==> !AllOpen(frames + [h], codec))
            && (!r.broken ==> Opens(r, codec, frames + [h], below))
            && SameElse(c, r)
  {
    hide LaneInv, LaneOf;
    var all := frames + [h];
    assert all[..|all| - 1] == frames && all[|all| - 1] == h;
    var body := codec.open(c.accepted, h.frame);
    if body.Some? {
      var x := Item(Message, h.at, body.value);
      DeliverOwn(c.box, x, Decoded(frames, codec), below);
      DeliverOther(c.box, x, Handshake);
      assert Decoded(all, codec) == Decoded(frames, codec) + [x] && Bare(all) == Bare(frames) + [h.frame];
      hide Only, Deliver, BoxInv, Decoded, Bare, AllOpen;
    }
  }

  lemma OpensAreOpen(c: Conn, codec: Codec, frames: seq<Held>, below: nat)
    requires Opens(c, codec, frames, below)
    ensures AllOpen(frames, codec)
  {
  }

  lemma SameElseTwice(c: Conn, m: Conn, r: Conn)
    requires SameElse(c, m) && SameElse(m, r)
    ensures SameElse(c, r)
  {
    hide Only, LaneOf;
  }

  lemma {:induction false} DrainAll(c: Conn, codec: Codec, frames: seq<Held>, early: seq<Held>, below: nat)
    requires !c.broken && InOrder(early, below)
    requires Opens(c, codec, frames, if early == [] then below else early[0].at)
    ensures var r := Drain(c, codec, early);
            && (r.broken <==> !AllOpen(frames + early, codec))
            && (!r.broken ==> Opens(r, codec, frames + early, below) && SameElse(c, r))
    decreases |early|
  {
    hide Opens, SameElse, Open, AllOpen, BoxInv;
    if early == [] {
      assert frames + early == frames;
      OpensAreOpen(c, codec, frames, below);
      assert SameElse(c, c) by { SameElseSelf(c); }
    } else {
      var h, rest := early[0], early[1..];
      OpenOne(c, codec, frames, h, if rest == [] then below else rest[0].at);
      assert frames + early == frames + [h] + rest;
      var m := Open(c, codec, h);
      if m.broken {
        StaysShut(frames + [h], rest, codec);
        assert Drain(c, codec, early) == m by { OpenFails(c, codec, h); }
      } else {
        OpenFails(c, codec, h);
        DrainAll(m, codec, frames + [h], rest, below);
        if !Drain(c, codec, early).broken { SameElseTwice(c, m, Drain(c, codec, early)); }
      }
    }
  }

  lemma OpenFails(c: Conn, codec: Codec, h: Held)
    requires !c.broken
    ensures Open(c, codec, h).broken <==> codec.open(c.accepted, h.frame).None?
    ensures Open(c, codec, h).broken ==> Open(c, codec, h) == c.(broken := true)
  {
  }

  lemma SameElseSelf(c: Conn)
    ensures SameElse(c, c)
  {
  }

  lemma {:induction false} StaysShut(a: seq<Held>, b: seq<Held>, codec: Codec)
    requires !AllOpen(a, codec)
    ensures !AllOpen(a + b, codec)
    decreases |b|
  {
    if b == [] {
      assert a + b == a;
    } else {
      assert (a + b)[..|a + b| - 1] == a + b[..|b| - 1];
      StaysShut(a, b[..|b| - 1], codec);
    }
  }

  // ----- whole schedules -----

  /** A listener was attached and its flush has not run yet. */
  predicate FlushOwed(evs: seq<Event>) {
    evs != [] && (evs[|evs| - 1].Attach? || (!evs[|evs| - 1].Flush? && FlushOwed(evs[..|evs| - 1])))
  }

  /** No transport delivery falls between attaching a listener and its flush. */
  predicate Prompt(evs: seq<Event>) {
    evs == [] ||
    (Prompt(evs[..|evs| - 1]) && (evs[|evs| - 1].Text? || evs[|evs| - 1].Binary? ==> !FlushOwed(evs[..|evs| - 1])))
  }

  predicate Upgraded(evs: seq<Event>) {
    evs != [] && (evs[|evs| - 1].Upgrade? || Upgraded(evs[..|evs| - 1]))
  }

  /** Early texts parse, at most 64 frames come before the keys and no text after, and every frame opens. */
  predicate WellFormed(evs: seq<Event>, codec: Codec) {
    evs == [] ||
    var init, last := evs[..|evs| - 1], evs[|evs| - 1];
    && WellFormed(init, codec)
    && (last.Text? ==> !Upgraded(init) && codec.parse(last.data).Some?)
    && (last.Binary? && !Upgraded(init) ==> |Frames(init)| < 64)
    && (last.Binary? && Upgraded(init) ==> AllOpen(Frames(evs), codec))
    && (last.Upgrade? ==> AllOpen(Frames(init), codec))
  }

  lemma {:induction false} FramesInOrder(evs: seq<Event>)
    ensures InOrder(Frames(evs), Arrivals(evs))
  {
    if evs != [] {
      FramesInOrder(evs[..|evs| - 1]);
    }
  }

  ghost predicate Keyed(c: Conn, codec: Codec, frames: seq<Held>, below: nat) {
    if c.upgraded then c.pending == [] && Opens(c, codec, frames, below)
    else c.pending == frames && Opens(c, codec, [], below)
  }

  /** The state of an unbroken connection after a schedule. */
  ghost predicate ConnInv(c: Conn, evs: seq<Event>, codec: Codec) {
    && c.count == Arrivals(evs) && c.upgraded == Upgraded(evs)
    && BoxInv(c.box, Handshake, Parsed(evs, codec), c.count)
    && Keyed(c, codec, Frames(evs), c.count)
  }

  ghost predicate Timely(c: Conn, evs: seq<Event>) {
    && !c.box.handshakes.overtook && !c.box.messages.overtook
    && (!FlushOwed(evs) ==> Clear(LaneOf(c.box, Handshake)) && Clear(LaneOf(c.box, Message)))
  }

  lemma Later(b: Mailbox, k: Kind, items: seq<Item>, below: nat, later: nat)
    requires BoxInv(b, k, items, below) && below <= later
    ensures BoxInv(b, k, items, later)
  {
  }

  lemma Snoc(init: seq<Event>, ev: Event)
    ensures (init + [ev])[..|init + [ev]| - 1] == init
  {
  }

  lemma TextSnoc(init: seq<Event>, data: Buffer, codec: Codec)
    ensures var evs := init + [Text(data)];
            && (WellFormed(evs, codec) <==> WellFormed(init, codec) && !Upgraded(init) && codec.parse(data).Some?)
            && Upgraded(evs) == Upgraded(init) && Arrivals(evs) == Arrivals(init) + 1 && Frames(evs) == Frames(init)
            && (Prompt(evs) ==> Prompt(init) && !FlushOwed(init))
            && (codec.parse(data).Some? ==>
                  Parsed(evs, codec) == Parsed(init, codec) + [Item(Handshake, Arrivals(init), codec.parse(data).value)])
  {
    Snoc(init, Text(data));
  }

  lemma TextKeeps(c: Conn, init: seq<Event>, data: Buffer, codec: Codec)
    requires !c.broken && ConnInv(c, init, codec) && WellFormed(init, codec)
    ensures var r, evs := Step(c, codec, Text(data)), init + [Text(data)];
            && (r.broken <==> !WellFormed(evs, codec))
            && (!r.broken ==> ConnInv(r, evs, codec))
            && (!r.broken && Prompt(evs) && Timely(c, init) ==> Timely(r, evs))
  {
    hide WellFormed, Prompt, FlushOwed, Parsed, Upgraded, Arrivals, Frames, BoxInv, Keyed, Timely, Deliver;
    TextSnoc(init, data, codec);
    if !c.upgraded && codec.parse(data).Some? {
      TextParsed(c, init, data, codec);
    } else {
      TextBreaks(c, codec, data);
    }
  }

  lemma TextBreaks(c: Conn, codec: Codec, data: Buffer)
    requires c.upgraded || codec.parse(data).None?
    ensures Step(c, codec, Text(data)).broken
  {
  }

  lemma TextParsed(c: Conn, init: seq<Event>, data: Buffer, codec: Codec)
    requires !c.broken && ConnInv(c, init, codec) && !c.upgraded && codec.parse(data).Some?
    ensures var r, evs := Step(c, codec, Text(data)), init + [Text(data)];
            !r.broken && ConnInv(r, evs, codec) && (!FlushOwed(init) && Timely(c, init) ==> Timely(r, evs))
  {
    hide Parsed, Upgraded, Frames, Arrivals, BoxInv, Deliver, LaneOf, Clear, Keyed, FlushOwed, WellFormed, Prompt;
    TextSnoc(init, data, codec);
    TextAt(c, Item(Handshake, c.count, codec.parse(data).value), Parsed(init, codec), Frames(init), codec);
  }

  lemma TextAt(c: Conn, x: Item, items: seq<Item>, frames: seq<Held>, codec: Codec)
    requires x.kind == Handshake && x.at == c.count && !c.upgraded
    requires BoxInv(c.box, Handshake, items, c.count) && Keyed(c, codec, frames, c.count)
    ensures var r := c.(count := c.count + 1, box := Deliver(c.box, x));
            && BoxInv(r.box, Handshake, items + [x], r.count) && Keyed(r, codec, frames, r.count)
            && LaneOf(r.box, Message) == LaneOf(c.box, Message) && r.box.messages == c.box.messages
            && (Clear(LaneOf(c.box, Handshake)) ==>
                  Clear(LaneOf(r.box, Handshake)) && r.box.handshakes.overtook == c.box.handshakes.overtook)
  {
    var r := c.(count := c.count + 1, box := Deliver(c.box, x));
    OpensNone(c, codec, c.count);
    TextDelivered(c, x, items);
    OpensNone(r, codec, r.count);
    hide BoxInv, Deliver, LaneOf, Clear, Opens;
  }

  lemma OpensNone(c: Conn, codec: Codec, below: nat)
    ensures Opens(c, codec, [], below) <==> c.accepted == [] && BoxInv(c.box, Message, [], below)
  {
  }

  lemma TextDelivered(c: Conn, x: Item, items: seq<Item>)
    requires x.kind == Handshake && x.at == c.count && BoxInv(c.box, Handshake, items, c.count) && BoxInv(c.box, Message, [], c.count)
    ensures var b := Deliver(c.box, x);
            && BoxInv(b, Handshake, items + [x], c.count + 1) && BoxInv(b, Message, [], c.count + 1)
            && LaneOf(b, Message) == LaneOf(c.box, Message) && b.messages == c.box.messages
            && (Clear(LaneOf(c.box, Handshake)) ==>
                  Clear(LaneOf(b, Handshake)) && b.handshakes.overtook == c.box.handshakes.overtook)
  {
    hide Permutes;
    DeliverOwn(c.box, x, items, c.count + 1);
    DeliverOther(c.box, x, Message);
    DeliverPosts(c.box, x);
    Later(c.box, Message, [], c.count, c.count + 1);
    hide Deliver, Only, LaneOf, LaneInv;
  }

  lemma DeliverPosts(b: Mailbox, x: Item)
    ensures forall k | k != x.kind :: PostOf(Deliver(b, x), k) == PostOf(b, k)
  {
  }

  lemma BinaryKeeps(c: Conn, init: seq<Event>, frame: Buffer, codec: Codec)
    requires !c.broken && ConnInv(c, init, codec) && WellFormed(init, codec)
    ensures var r, evs := Step(c, codec, Binary(frame)), init + [Binary(frame)];
            && (r.broken <==> !WellFormed(evs, codec))
            && (!r.broken ==> ConnInv(r, evs, codec))
            && (!r.broken && Prompt(evs) && Timely(c, init) ==> Timely(r, evs))
  {
    hide Permutes;
    Snoc(init, Binary(frame));
    Later(c.box, Handshake, Parsed(init, codec), c.count, c.count + 1);
    if c.upgraded {
      OpenOne(c.(count := c.count + 1), codec, Frames(init), Held(c.count, frame), c.count + 1);
    } else {
      Later(c.box, Message, [], c.count, c.count + 1);
    }
    hide BoxInv, Open, Only;
  }

  lemma UpgradeKeeps(c: Conn, init: seq<Event>, codec: Codec)
    requires !c.broken && ConnInv(c, init, codec) && WellFormed(init, codec)
    ensures var r, evs := Step(c, codec, Upgrade), init + [Upgrade];
            && (r.broken <==> !WellFormed(evs, codec))
            && (!r.broken ==> ConnInv(r, evs, codec))
            && (!r.broken && Prompt(evs) && Timely(c, init) ==> Timely(r, evs))
  {
    hide Permutes;
    Snoc(init, Upgrade);
    FramesInOrder(init);
    if c.upgraded {
      UpgradedOpens(init, codec);
    } else {
      Drained(c, codec, Frames(init));
      hide BoxInv, Drain, Only, LaneOf, InOrder, Clear, SameElse;
    }
  }

  lemma Drained(c: Conn, codec: Codec, frames: seq<Held>)
    requires !c.broken && InOrder(frames, c.count) && c.pending == frames && !c.upgraded && Opens(c, codec, [], c.count)
    requires BoxInv(c.box, Handshake, Only(Handshake, c.box.delivered), c.count)
    ensures var r := Drain(c.(upgraded := true, pending := []), codec, frames);
            && (r.broken <==> !AllOpen(frames, codec))
            && (!r.broken ==>
                  && Opens(r, codec, frames, c.count) && r.upgraded && r.pending == [] && r.count == c.count
                  && BoxInv(r.box, Handshake, Only(Handshake, c.box.delivered), c.count)
                  && LaneOf(r.box, Handshake) == LaneOf(c.box, Handshake)
                  && Clear(LaneOf(r.box, Message)) && r.box.messages.overtook == c.box.messages.overtook)
  {
    hide Permutes;
    NothingYet(c.box, if frames == [] then c.count else frames[0].at, c.count);
    DrainAll(c.(upgraded := true, pending := []), codec, [], frames, c.count);
    assert [] + frames == frames;
    hide Drain, Only, LaneOf, LaneInv, AllOpen, InOrder;
  }

  /** Before the keys no message has been delivered, so none is held and none was overtaken. */
  lemma NothingYet(b: Mailbox, below: nat, bound: nat)
    requires BoxInv(b, Message, [], bound)
    ensures BoxInv(b, Message, [], below) && Clear(LaneOf(b, Message))
  {
    PermutesIn(Seen(LaneOf(b, Message)), []);
  }

  /** What attaching, detaching and flushing leave alone. */
  ghost predicate OnlyListeners(b: Mailbox, r: Mailbox, k: Kind) {
    && r.delivered == b.delivered && Seen(LaneOf(r, k)) == Seen(LaneOf(b, k)) && PostOf(r, k).overtook == PostOf(b, k).overtook
  }

  lemma ListenerSteps(c: Conn, ev: Event, codec: Codec, k: Kind)
    requires ev.Attach? || ev.Detach? || ev.Flush?
    ensures var r := Step(c, codec, ev);
            && r.(box := c.box) == c && OnlyListeners(c.box, r.box, k)
            && (ev.Flush? ==> Clear(LaneOf(r.box, k)))
            && (ev.Detach? && Clear(LaneOf(c.box, k)) ==> Clear(LaneOf(r.box, k)))
  {
    if ev.Flush? { FlushedLane(c.box, k); }
    hide Only, FlushAll;
  }

  lemma SameItems(b: Mailbox, r: Mailbox, k: Kind, items: seq<Item>, below: nat)
    requires BoxInv(b, k, items, below) && OnlyListeners(b, r, k)
    ensures BoxInv(r, k, items, below)
  {
    hide Permutes, Ascending;
  }

  lemma ListenersKeep(c: Conn, init: seq<Event>, ev: Event, codec: Codec)
    requires !c.broken && ConnInv(c, init, codec) && WellFormed(init, codec) && (ev.Attach? || ev.Detach? || ev.Flush?)
    ensures var r, evs := Step(c, codec, ev), init + [ev];
            && !r.broken && WellFormed(evs, codec) && ConnInv(r, evs, codec)
            && (Timely(c, init) ==> Timely(r, evs))
  {
    hide Step, BoxInv, Clear, LaneOf, Seen;
    Snoc(init, ev);
    var r := Step(c, codec, ev);
    ListenerSteps(c, ev, codec, Handshake);
    ListenerSteps(c, ev, codec, Message);
    SameItems(c.box, r.box, Handshake, Parsed(init, codec), c.count);
    SameItems(c.box, r.box, Message, if c.upgraded then Decoded(Frames(init), codec) else Decoded([], codec), c.count);
  }

  lemma {:induction false} RunInv(evs: seq<Event>, codec: Codec)
    ensures Run(evs, codec).broken <==> !WellFormed(evs, codec)
    ensures WellFormed(evs, codec) ==> ConnInv(Run(evs, codec), evs, codec) && (Prompt(evs) ==> Timely(Run(evs, codec), evs))
  {
    if evs != [] {
      var init, ev := evs[..|evs| - 1], evs[|evs| - 1];
      assert evs == init + [ev];
      RunInv(init, codec);
      var c := Run(init, codec);
      hide Run, ConnInv, Timely;
      assert Run(evs, codec) == Step(c, codec, ev) by { RunSnoc(init, ev, codec); }
      if c.broken {
        BrokenStays(c, codec, ev);
      } else {
        match ev
        case Text(data) => TextKeeps(c, init, data, codec);
        case Binary(frame) => BinaryKeeps(c, init, frame, codec);
        case Upgrade => UpgradeKeeps(c, init, codec);
        case _ => ListenersKeep(c, init, ev, codec);
      }
    }
  }

  lemma RunSnoc(init: seq<Event>, ev: Event, codec: Codec)
    ensures Run(init + [ev], codec) == Step(Run(init, codec), codec, ev)
  {
    Snoc(init, ev);
  }

  lemma {:induction false} DrainStaysBroken(c: Conn, codec: Codec, early: seq<Held>)
    requires c.broken
    ensures Drain(c, codec, early).broken
    decreases |early|
  {
    if early != [] && codec.open(c.accepted, early[0].frame).Some? {
      DrainStaysBroken(Open(c, codec, early[0]), codec, early[1..]);
    }
  }

  lemma BrokenStays(c: Conn, codec: Codec, ev: Event)
    requires c.broken
    ensures Step(c, codec, ev).broken
  {
    if ev.Upgrade? && !c.upgraded { DrainStaysBroken(c.(upgraded := true, pending := []), codec, c.pending); }
  }

  // ----- the main results -----

  /** What a kind's consumers should see: every arrival of the kind, decoded once, in arrival order. */
  function Reference(evs: seq<Event>, codec: Codec, k: Kind): seq<Item>
    requires WellFormed(evs, codec)
  {
    if k == Handshake then Parsed(evs, codec)
    else if Upgraded(evs) then
      UpgradedOpens(evs, codec);
      Decoded(Frames(evs), codec)
    else []
  }

  lemma UpgradedOpens(evs: seq<Event>, codec: Codec)
    requires WellFormed(evs, codec) && Upgraded(evs)
    ensures AllOpen(Frames(evs), codec)
  {
  }

  /**
   * For any placement of the upgrade and any schedule of listeners: the connection survives exactly when the
   * arrivals are well formed, and then consumers have seen, or have waiting for them, each decoded arrival
   * once and in order exactly when no delivery overtook a held event of its kind.
   */
  lemma SeenExactlyWhenNothingOvertook(evs: seq<Event>, codec: Codec, k: Kind)
    ensures !Run(evs, codec).broken <==> WellFormed(evs, codec)
    ensures WellFormed(evs, codec) ==>
              (Seen(LaneOf(Run(evs, codec).box, k)) == Reference(evs, codec, k) <==> !PostOf(Run(evs, codec).box, k).overtook)
  {
    RunInv(evs, codec);
  }

  /** When no delivery falls between attaching a listener and its flush, timing is invisible. */
  lemma TimingIsInvisible(evs: seq<Event>, codec: Codec, k: Kind)
    requires WellFormed(evs, codec) && Prompt(evs)
    ensures Seen(LaneOf(Run(evs, codec).box, k)) == Reference(evs, codec, k)
    ensures !FlushOwed(evs) && Hungry(PostOf(Run(evs, codec).box, k).mode) ==> Only(k, Run(evs, codec).box.handed) == Reference(evs, codec, k)
  {
    RunInv(evs, codec);
  }

  /** With something held, a frame delivered in that gap always overtakes it: the order is lost for good. */
  lemma GapOvertakes(c: Conn, codec: Codec, data: Buffer)
    requires !c.broken && !c.upgraded && Only(Handshake, c.box.inbox) != [] && codec.parse(data).Some?
    ensures Step(Step(c, codec, Attach(Handshake, Forever)), codec, Text(data)).box.handshakes.overtook
  {
  }

  /** The transport's part of a schedule. */
  function Arrived(evs: seq<Event>): seq<Event> {
    if evs == [] then []
    else
      var init, last := evs[..|evs| - 1], evs[|evs| - 1];
      if last.Text? || last.Binary? then Arrived(init) + [last] else Arrived(init)
  }

  lemma {:induction false} ArrivedDecides(evs: seq<Event>, codec: Codec)
    ensures Parsed(evs, codec) == Parsed(Arrived(evs), codec) && Frames(evs) == Frames(Arrived(evs))
    ensures Arrivals(evs) == Arrivals(Arrived(evs))
  {
    if evs != [] {
      var init, last := evs[..|evs| - 1], evs[|evs| - 1];
      ArrivedDecides(init, codec);
      Snoc(Arrived(init), last);
    }
  }

  /**
   * Two prompt schedules of the same arrivals, in one of which someone listens throughout the end: what the
   * other's consumers have seen or have waiting is exactly what those listeners were handed.
   */
  lemma SameAsListenersFirst(evs: seq<Event>, first: seq<Event>, codec: Codec, k: Kind)
    requires WellFormed(evs, codec) && Prompt(evs) && WellFormed(first, codec) && Prompt(first) && !FlushOwed(first)
    requires Hungry(PostOf(Run(first, codec).box, k).mode)
    requires Arrived(evs) == Arrived(first) && Upgraded(evs) == Upgraded(first)
    ensures Seen(LaneOf(Run(evs, codec).box, k)) == Only(k, Run(first, codec).box.handed)
  {
    ArrivedDecides(evs, codec);
    ArrivedDecides(first, codec);
    TimingIsInvisible(evs, codec, k);
    TimingIsInvisible(first, codec, k);
  }
}
