/** How a graceful handoff resolves: claimed strictly before its deadline, or swept at or after it. */
module RelayHandoff {
  import opened Bytes
  import opened RelayWire
  import opened RelayRoom
  import opened RateWindow
  import opened RelayRegistry
  import ClientWire

  predicate Pending(reg: Registry, id: string) {
    id in reg.rooms && reg.rooms[id].deadline.Some?
  }

  /** A sweep walks every room once. */
  ghost predicate WellFormed(reg: Registry, ev: Event) {
    ev.SweepEvent? ==>
      && (forall id | id in reg.rooms :: id in ev.order)
      && (forall i, j | 0 <= i < j < |ev.order| :: ev.order[i] != ev.order[j])
  }

  /** Still pending, with the same host; only a HANDOFF from that host moves the deadline. */
  ghost predicate Kept(reg: Registry, now: int, ev: Event, o: Outcome, id: string)
    requires Pending(reg, id)
  {
    && Pending(o.reg, id)
    && o.reg.rooms[id].host == reg.rooms[id].host
    && (o.reg.rooms[id].deadline == reg.rooms[id].deadline
        || (ev.MessageEvent? && ev.sock == reg.rooms[id].host && TypeIs(ev.buf, HANDOFF)
            && o.reg.rooms[id].deadline == Some(now + HANDOFF_GRACE_MS)))
  }

  /** The successor owns the room, knows every survivor, and every survivor knows it. */
  ghost predicate Claimed(reg: Registry, now: int, ev: Event, o: Outcome, id: string)
    requires Pending(reg, id)
  {
    && now < reg.rooms[id].deadline.value
    && ev.HelloEvent? && ev.hello.role == HostRole && ev.hello.roomId == id
    && id in o.reg.rooms
    && o.reg.rooms[id] == reg.rooms[id].(host := ev.sock, deadline := None)
    && SentTo(o.out, ev.sock) == [Ready(None)] + Ups(Ascending(reg.rooms[id].peers, reg.rooms[id].nextConnId))
    && (forall p | p != ev.sock ::
          SentTo(o.out, p) == if p in reg.rooms[id].peers.Values then [HostClaimed] else [])
  }

  /** Nobody came: the room is gone, and each survivor is told so once and closed. */
  ghost predicate Lapsed(reg: Registry, now: int, ev: Event, o: Outcome, id: string)
    requires Pending(reg, id)
  {
    && now >= reg.rooms[id].deadline.value
    && ev.SweepEvent?
    && id !in o.reg.rooms
    && (forall p | p in reg.rooms[id].peers.Values :: SentTo(o.out, p) == [HostGone] && Close(p) in o.out)
  }

  lemma DistinctPeers(room: Room, attached: map<Socket, Attached>, lim: Limits, id: string)
    requires RoomInv(room, attached, lim, id)
    ensures OneIdEach(room.peers)
  {
    forall a, b | a in room.peers && b in room.peers && room.peers[a] == room.peers[b] ensures a == b {
      assert attached[room.peers[a]] == AsPeer(id, a) && attached[room.peers[b]] == AsPeer(id, b);
    }
  }

  lemma ClaimReaches(room: Room, sock: Socket, p: Socket)
    requires sock !in room.peers.Values && OneIdEach(room.peers) && forall c | c in room.peers :: c < room.nextConnId
    ensures SentTo(Claim(room, sock).out, p)
         == if p == sock then [Ready(None)] + Ups(Ascending(room.peers, room.nextConnId))
            else if p in room.peers.Values then [HostClaimed] else []
  {
    var notices := ClaimNotices(sock, room.peers, room.nextConnId);
    SentToConcat([Send(sock, Ready(None))], notices, p);
    assert [Send(sock, Ready(None))][..0] == [];
    assert SentTo([Send(sock, Ready(None))], p) == if p == sock then [Ready(None)] else [];
    if p == sock {
      ClaimNoticesToHost(sock, room.peers, room.nextConnId);
    } else {
      ClaimNoticesToPeer(sock, room.peers, room.nextConnId, p);
      BelowAll(room.peers, room.nextConnId, p);
    }
  }

  lemma NotAPeer(room: Room, attached: map<Socket, Attached>, lim: Limits, id: string, sock: Socket)
    requires RoomInv(room, attached, lim, id) && sock !in attached
    ensures sock !in room.peers.Values && OneIdEach(room.peers) && forall c | c in room.peers :: c < room.nextConnId
  {
    DistinctPeers(room, attached, lim, id);
  }

  lemma ClaimResolves(reg: Registry, lim: Limits, now: int, ev: Event, id: string)
    requires Inv(reg, lim) && Pending(reg, id) && now < reg.rooms[id].deadline.value
    requires ev.HelloEvent? && ev.sock !in reg.attached
    requires ev.hello == Hello(HostRole, id, PROTOCOL_VERSION)
    ensures Claimed(reg, now, ev, Step(reg, lim, now, ev), id)
  {
    var room, sock := reg.rooms[id], ev.sock;
    NotAPeer(room, reg.attached, lim, id, sock);
    assert Step(reg, lim, now, ev).out == Claim(room, sock).out;
    forall p ensures SentTo(Claim(room, sock).out, p)
                  == if p == sock then [Ready(None)] + Ups(Ascending(room.peers, room.nextConnId))
                     else if p in room.peers.Values then [HostClaimed] else [] {
      ClaimReaches(room, sock, p);
    }
  }

  lemma SentToNothing(p: Socket)
    ensures SentTo([], p) == []
  {
  }

  lemma TeardownOne(room: Room, p: Socket)
    requires OneIdEach(room.peers) && forall c | c in room.peers :: c < room.nextConnId
    ensures SentTo(Teardown(room), p) == if p in room.peers.Values then [HostGone] else []
    ensures Close(p) in Teardown(room) <==> p in room.peers.Values
  {
    hide TeardownNotices, SentTo, Below;
    TeardownReaches(room.peers, room.nextConnId, p);
    BelowAll(room.peers, room.nextConnId, p);
  }

  lemma {:induction false} SweepNoticesReach(rooms: map<string, Room>, order: seq<string>, now: int, id: string, p: Socket)
    requires id in rooms && Expired(rooms[id], now) && p in rooms[id].peers.Values
    requires forall r | r in rooms :: OneIdEach(rooms[r].peers) && forall c | c in rooms[r].peers :: c < rooms[r].nextConnId
    requires forall r | r in rooms && r != id :: p !in rooms[r].peers.Values
    requires forall i, j | 0 <= i < j < |order| :: order[i] != order[j]
    ensures SentTo(SweepNotices(rooms, order, now), p) == if id in order then [HostGone] else []
    ensures id in order ==> Close(p) in SweepNotices(rooms, order, now)
  {
    hide Teardown, SentTo, OneIdEach, Expired;
    if order == [] {
      assert SentTo([], p) == [] by { SentToNothing(p); }
    } else {
      var before, last := order[..|order| - 1], order[|order| - 1];
      SweepNoticesReach(rooms, before, now, id, p);
      assert order == before + [last];
      if last in rooms && Expired(rooms[last], now) {
        TeardownOne(rooms[last], p);
        SentToConcat(SweepNotices(rooms, before, now), Teardown(rooms[last]), p);
      }
    }
  }

  lemma SweepResolves(reg: Registry, lim: Limits, now: int, ev: Event, id: string)
    requires Inv(reg, lim) && Pending(reg, id) && now >= reg.rooms[id].deadline.value
    requires ev.SweepEvent? && WellFormed(reg, ev)
    ensures Lapsed(reg, now, ev, Step(reg, lim, now, ev), id)
  {
    forall r | r in reg.rooms
      ensures OneIdEach(reg.rooms[r].peers) && forall c | c in reg.rooms[r].peers :: c < reg.rooms[r].nextConnId
    {
      assert RoomInv(reg.rooms[r], reg.attached, lim, r);
      DistinctPeers(reg.rooms[r], reg.attached, lim, r);
    }
    forall p | p in reg.rooms[id].peers.Values
      ensures SentTo(SweepNotices(reg.rooms, ev.order, now), p) == [HostGone] && Close(p) in SweepNotices(reg.rooms, ev.order, now)
    {
      var c :| c in reg.rooms[id].peers && reg.rooms[id].peers[c] == p;
      forall r, d | r in reg.rooms && r != id && d in reg.rooms[r].peers ensures reg.rooms[r].peers[d] != p {
        OnePlacePerSocket(reg, lim, id, c, r, d);
      }
      SweepNoticesReach(reg.rooms, ev.order, now, id, p);
    }
  }

  lemma HelloLeavesPending(reg: Registry, lim: Limits, now: int, ev: Event, id: string)
    requires Pending(reg, id) && ev.HelloEvent?
    requires ev.sock in reg.attached || ev.hello != Hello(HostRole, id, PROTOCOL_VERSION) || now >= reg.rooms[id].deadline.value
    ensures Kept(reg, now, ev, Step(reg, lim, now, ev), id)
  {
  }

  lemma MessageLeavesPending(reg: Registry, lim: Limits, now: int, ev: Event, id: string)
    requires Pending(reg, id) && ev.MessageEvent?
    ensures Kept(reg, now, ev, Step(reg, lim, now, ev), id)
  {
  }

  lemma CloseLeavesPending(reg: Registry, lim: Limits, now: int, ev: Event, id: string)
    requires Pending(reg, id) && ev.CloseEvent?
    ensures Kept(reg, now, ev, Step(reg, lim, now, ev), id)
  {
  }

  /** One event on a pending room: it stays pending, or is claimed in time, or lapses in a sweep. */
  lemma PendingStep(reg: Registry, lim: Limits, now: int, ev: Event, id: string)
    requires Inv(reg, lim) && Pending(reg, id) && WellFormed(reg, ev)
    ensures var o := Step(reg, lim, now, ev);
            Kept(reg, now, ev, o, id) || Claimed(reg, now, ev, o, id) || Lapsed(reg, now, ev, o, id)
  {
    match ev
    case HelloEvent(sock, hello) =>
      if sock !in reg.attached && hello == Hello(HostRole, id, PROTOCOL_VERSION) && now < reg.rooms[id].deadline.value {
        ClaimResolves(reg, lim, now, ev, id);
      } else {
        HelloLeavesPending(reg, lim, now, ev, id);
      }
    case SweepEvent(order) =>
      if now >= reg.rooms[id].deadline.value {
        SweepResolves(reg, lim, now, ev, id);
      } else {
        assert Kept(reg, now, ev, Step(reg, lim, now, ev), id);
      }
    case MessageEvent(sock, buf) => MessageLeavesPending(reg, lim, now, ev, id);
    case CloseEvent(sock) => CloseLeavesPending(reg, lim, now, ev, id);
  }

  /** The three outcomes exclude each other: no handoff is both claimed and given up. */
  lemma NeverBoth(reg: Registry, now: int, ev: Event, o: Outcome, id: string)
    requires Pending(reg, id)
    ensures !(Claimed(reg, now, ev, o, id) && Lapsed(reg, now, ev, o, id))
    ensures Claimed(reg, now, ev, o, id) || Lapsed(reg, now, ev, o, id) ==> !Pending(o.reg, id)
  {
  }

  /** While pending, no peer of the room gets a frame through to any host, and the old host's close changes no room. */
  lemma PendingIsQuiet(reg: Registry, lim: Limits, now: int, ev: Event, id: string)
    requires Pending(reg, id)
    requires (ev.MessageEvent? || ev.CloseEvent?) && ev.sock in reg.attached && reg.attached[ev.sock].roomId == id
    ensures ev.MessageEvent? && reg.attached[ev.sock].AsPeer? && !TypeIs(ev.buf, PING) ==> Step(reg, lim, now, ev) == Outcome(reg, [])
    ensures ev.CloseEvent? && reg.attached[ev.sock].AsHost? ==>
              Step(reg, lim, now, ev) == Outcome(reg.(attached := reg.attached - {ev.sock}), [])
  {
    assert reg.rooms[id := reg.rooms[id]] == reg.rooms;
  }

  ghost predicate WellFormedRun(reg: Registry, lim: Limits, run: seq<Timed>)
    decreases |run|
  {
    run == [] || (WellFormed(reg, run[0].ev) && WellFormedRun(Step(reg, lim, run[0].now, run[0].ev).reg, lim, run[1..]))
  }

  /** How many events of the run pass before the room stops being pending. */
  function PendingFor(reg: Registry, lim: Limits, run: seq<Timed>, id: string): (k: nat)
    ensures k <= |run|
    decreases |run|
  {
    if run == [] || !Pending(reg, id) then 0
    else
      var reg' := Step(reg, lim, run[0].now, run[0].ev).reg;
      if Pending(reg', id) then 1 + PendingFor(reg', lim, run[1..], id) else 0
  }

  /**
   * A whole run from a pending handoff: through the first PendingFor events the room stays
   * reserved under the same host, and the event that ends it, if any, is a claim strictly
   * before the deadline then in force or a sweep at or after it.
   */
  lemma {:induction false} HandoffResolution(reg: Registry, lim: Limits, run: seq<Timed>, id: string)
    requires Inv(reg, lim) && Pending(reg, id) && WellFormedRun(reg, lim, run)
    ensures var k := PendingFor(reg, lim, run, id);
            var at := Run(reg, lim, run[..k]);
            && Pending(at, id) && at.rooms[id].host == reg.rooms[id].host
            && (k < |run| ==>
                  var o := Step(at, lim, run[k].now, run[k].ev);
                  Claimed(at, run[k].now, run[k].ev, o, id) || Lapsed(at, run[k].now, run[k].ev, o, id))
    decreases |run|
  {
    hide Inv, Step, WellFormed;
    var k := PendingFor(reg, lim, run, id);
    if run != [] {
      var reg' := Step(reg, lim, run[0].now, run[0].ev).reg;
      PendingStep(reg, lim, run[0].now, run[0].ev, id);
      StepKeepsInv(reg, lim, run[0].now, run[0].ev);
      if Pending(reg', id) {
        HandoffResolution(reg', lim, run[1..], id);
        assert run[..k][1..] == run[1..][..k - 1];
        assert run[..k][0] == run[0];
      }
    }
  }

  /**
   * A HANDOFF from the room's host reserves the room for its successor for the eight seconds that follow, and tells
   * nobody; from a host that is no longer the room's it does nothing.
   */
  lemma HandoffReserves(reg: Registry, lim: Limits, now: int, sock: Socket, buf: Buffer, id: string)
    requires sock in reg.attached && reg.attached[sock] == AsHost(id) && id in reg.rooms && |buf| > 0 && buf[0] == 0x08
    ensures var o, room := Step(reg, lim, now, MessageEvent(sock, buf)), reg.rooms[id];
            && o.out == [] && o.reg.attached == reg.attached && o.reg.rate == reg.rate
            && o.reg.rooms == if room.host == sock then reg.rooms[id := room.(deadline := Some(now + 8_000))] else reg.rooms
  {
  }

  /** A host's KICK drops that member and closes its socket, and tells nobody else; of any other connId it does nothing. */
  lemma KickDrops(reg: Registry, lim: Limits, now: int, sock: Socket, buf: Buffer, id: string)
    requires sock in reg.attached && reg.attached[sock] == AsHost(id) && id in reg.rooms && |buf| > 0 && buf[0] == 0x07
    ensures var o, room := Step(reg, lim, now, MessageEvent(sock, buf)), reg.rooms[id];
            && o.reg.attached == reg.attached && o.reg.rate == reg.rate
            && (if DecodeKick(buf).Some? && DecodeKick(buf).value in room.peers then
                  var c := DecodeKick(buf).value;
                  o.out == [Close(room.peers[c])] && o.reg.rooms == reg.rooms[id := room.(peers := room.peers - {c})]
                else o.out == [] && o.reg.rooms == reg.rooms)
  {
    var room := reg.rooms[id];
    if DecodeKick(buf).Some? && DecodeKick(buf).value in room.peers {
      assert Without(room.peers, DecodeKick(buf).value) == room.peers - {DecodeKick(buf).value};
    }
  }

  /** A PING is answered with a PONG, attached or not, and nothing else happens. */
  lemma PingIsAnswered(reg: Registry, lim: Limits, now: int, sock: Socket, buf: Buffer)
    requires |buf| > 0 && buf[0] == 0x20
    ensures Step(reg, lim, now, MessageEvent(sock, buf)) == Outcome(reg, [Send(sock, Pong)])
  {
  }

  /**
   * A host's data goes to the member it names, a peer's to its room's host under its own connId unless a handoff is
   * pending, and to nobody else.
   */
  lemma DataIsRouted(reg: Registry, lim: Limits, now: int, sock: Socket, id: string, c: U32, p: Payload)
    requires sock in reg.attached && id in reg.rooms
    ensures reg.attached[sock] == AsHost(id) ==>
              var o := Step(reg, lim, now, MessageEvent(sock, ClientWire.EncodeDataH(c, p)));
              && o.reg.rooms == reg.rooms && o.reg.attached == reg.attached
              && o.out == if c in reg.rooms[id].peers then [Send(reg.rooms[id].peers[c], Raw(DataToPeer(p)))] else []
    ensures reg.attached[sock] == AsPeer(id, c) ==>
              var o := Step(reg, lim, now, MessageEvent(sock, ClientWire.EncodeDataP(p)));
              && o.reg.rooms == reg.rooms && o.reg.attached == reg.attached
              && o.out == if reg.rooms[id].deadline.None? then [Send(reg.rooms[id].host, Raw(DataToHost(c, p)))] else []
  {
    ClientWire.HostToPeerHop(c, p);
    ClientWire.PeerToHostHop(c, p);
    hide ClientWire.EncodeDataH, ClientWire.EncodeDataP, DecodeDataFromHost, DecodeDataFromPeer, DecodeKick;
  }
}
