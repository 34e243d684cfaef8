/**
 * The registry and the end-to-end model are about the same relay: whatever the registry does with the sockets
 * of one room, from the room's creation to its end, is a legal run of module Multiplexer.
 */
module RelayProjection {
  import opened Bytes
  import opened RelayWire
  import opened RelayRoom
  import opened RateWindow
  import opened RelayRegistry
  import opened RelayEvents
  import RelayHandoff
  import Multiplexer
  import MultiplexerTheorems

  // ----- when the two speak of the same room -----

  /** Every socket the registry knows has said its hello; a socket says hello once. */
  ghost predicate Known(reg: Registry, used: set<Socket>) {
    && reg.attached.Keys <= used
    && forall r | r in reg.rooms :: reg.rooms[r].host in used && reg.rooms[r].peers.Values <= used
  }

  /** No socket of this room is in another. */
  ghost predicate Apart(reg: Registry, id: string, socks: set<Socket>) {
    forall r | r in reg.rooms && r != id :: reg.rooms[r].host !in socks && reg.rooms[r].peers.Values !! socks
  }

  /** The same sockets are attached, as the same peers, and only its hosts as hosts. */
  ghost predicate SameAttached(attached: map<Socket, Attached>, id: string, peers: map<Socket, nat>, hosts: set<Socket>) {
    && (forall q | q in peers :: q in attached && attached[q] == AsPeer(id, peers[q]))
    && (forall q | q in attached && attached[q].roomId == id :: if attached[q].AsPeer? then q in peers else q in hosts)
    && (forall q | q in hosts && q in attached :: attached[q] == AsHost(id))
  }

  ghost predicate Follows(reg: Registry, lim: Limits, id: string, s: Multiplexer.Sys, used: set<Socket>) {
    && Inv(reg, lim) && MultiplexerTheorems.Reached(s)
    && id in reg.rooms && reg.rooms[id] == s.room && !s.over
    && SameAttached(reg.attached, id, s.attached, s.ends.Keys)
    && s.wires.Keys <= used && Known(reg, used) && Apart(reg, id, s.wires.Keys)
  }

  /** Hypotheses E and S, the queues, and one hello a socket, as conditions on one event. */
  ghost predicate Fair(reg: Registry, id: string, s: Multiplexer.Sys, used: set<Socket>, ev: Event) {
    match ev
    case HelloEvent(sock, hello) => sock !in used && (hello.roomId == id ==> s.room.nextConnId < CONN_ID_LIMIT)
    case MessageEvent(sock, buf) =>
      sock in s.wires ==>
        && sock in reg.attached && (sock == s.room.host || (sock in s.attached && sock !in s.severed))
        && s.wires[sock].taken < |s.wires[sock].up| && s.wires[sock].up[s.wires[sock].taken] == buf
    case CloseEvent(_) => true
    case SweepEvent(_) => RelayHandoff.WellFormed(reg, ev)
  }

  /** What the relay sends in a step is what appears on the room's sockets. */
  ghost predicate Delivered(s: Multiplexer.Sys, s': Multiplexer.Sys, out: seq<Effect>) {
    forall q | q in s.wires :: q in s'.wires && s'.wires[q].down == s.wires[q].down + SentTo(out, q)
  }

  function Using(used: set<Socket>, ev: Event): set<Socket> { if ev.HelloEvent? then used + {ev.sock} else used }

  // ----- runs of the end-to-end model -----

  lemma {:induction false} LegalSnoc(s: Multiplexer.Sys, run: seq<Multiplexer.Action>, a: Multiplexer.Action)
    requires MultiplexerTheorems.Legal(s, run) && Multiplexer.Enabled(MultiplexerTheorems.After(s, run), a)
    ensures MultiplexerTheorems.Legal(s, run + [a])
    ensures MultiplexerTheorems.After(s, run + [a]) == Multiplexer.Next(MultiplexerTheorems.After(s, run), a)
    decreases |run|
  {
    hide Multiplexer.Next, Multiplexer.Enabled;
    var all := run + [a];
    if run == [] {
      assert all == [a] && all[1..] == [];
    } else {
      assert all[0] == run[0] && all[1..] == run[1..] + [a];
      LegalSnoc(Multiplexer.Next(s, run[0]), run[1..], a);
    }
  }

  lemma ReachedNext(s: Multiplexer.Sys, a: Multiplexer.Action)
    requires MultiplexerTheorems.Reached(s) && Multiplexer.Enabled(s, a)
    ensures MultiplexerTheorems.Reached(Multiplexer.Next(s, a))
  {
    hide Multiplexer.Next, Multiplexer.Enabled, MultiplexerTheorems.Legal, MultiplexerTheorems.After;
    var first, run :| MultiplexerTheorems.Legal(Multiplexer.Initial(first), run)
                      && s == MultiplexerTheorems.After(Multiplexer.Initial(first), run);
    LegalSnoc(Multiplexer.Initial(first), run, a);
    assert MultiplexerTheorems.Legal(Multiplexer.Initial(first), run + [a]);
  }

  // ----- who hears what -----

  /** A run of effects that names none of these sockets puts nothing on them. */
  lemma {:induction false} ReachesNobody(out: seq<Effect>, socks: set<Socket>, q: Socket)
    requires q in socks && forall e | e in out :: e.sock !in socks
    ensures SentTo(out, q) == []
  {
    if out != [] {
      assert out[|out| - 1] in out;
      ReachesNobody(out[..|out| - 1], socks, q);
    }
  }

  lemma {:induction false} TeardownNames(peers: map<nat, Socket>, bound: nat)
    ensures forall e | e in TeardownNotices(peers, bound) :: e.sock in peers.Values
  {
    if bound > 0 { TeardownNames(peers, bound - 1); }
  }

  lemma {:induction false} ClaimNames(host: Socket, peers: map<nat, Socket>, bound: nat)
    ensures forall e | e in ClaimNotices(host, peers, bound) :: e.sock == host || e.sock in peers.Values
  {
    if bound > 0 { ClaimNames(host, peers, bound - 1); }
  }

  /** A change of a room names only its own sockets and the one that comes in. */
  lemma ActNames(room: Option<Room>, ch: Change, now: int, sock: Socket)
    requires ch.Nothing? || ch.Created? || room.Some?
    requires (ch.Created? ==> ch.host == sock) && (ch.ClaimedBy? ==> ch.host == sock) && (ch.Joined? ==> ch.peer == sock)
    ensures forall e | e in Act(room, ch, now).out ::
              e.sock == sock || (room.Some? && (e.sock == room.value.host || e.sock in room.value.peers.Values))
  {
    match ch
    case ClaimedBy(h) => ClaimNames(h, room.value.peers, room.value.nextConnId);
    case HostLeft => TeardownNames(room.value.peers, room.value.nextConnId);
    case _ =>
  }

  // ----- the registry's side of one event -----

  /** What an event does to the registry, by its change. */
  lemma KnownAfter(reg: Registry, now: int, ev: Event, o: Outcome, rid: string, ch: Change, used: set<Socket>)
    requires Acts(reg, now, ev, o, rid, ch) && Known(reg, used)
    ensures Known(o.reg, Using(used, ev))
  {
    var room' := Act(Lookup(reg.rooms, rid), ch, now).room;
    assert forall r | r in o.reg.rooms :: r in reg.rooms || r == rid;
    if rid in o.reg.rooms { MembersAfter(Lookup(reg.rooms, rid), ch, now, used, Using(used, ev)); }
    forall r | r in o.reg.rooms ensures o.reg.rooms[r].host in Using(used, ev) && o.reg.rooms[r].peers.Values <= Using(used, ev) {
      if r != rid { assert o.reg.rooms[r] == reg.rooms[r]; }
    }
  }

  /** The members of a room after a change come from those before, and the one that comes in. */
  lemma MembersAfter(room: Option<Room>, ch: Change, now: int, socks: set<Socket>, socks': set<Socket>)
    requires ch.Nothing? || ch.Created? || room.Some?
    requires socks <= socks' && (room.Some? ==> room.value.host in socks && room.value.peers.Values <= socks)
    requires (ch.Created? ==> ch.host in socks') && (ch.ClaimedBy? ==> ch.host in socks') && (ch.Joined? ==> ch.peer in socks')
    ensures var r := Act(room, ch, now).room; r.Some? ==> r.value.host in socks' && r.value.peers.Values <= socks'
  {
  }

  lemma MembersApart(room: Option<Room>, ch: Change, now: int, sock: Socket, socks: set<Socket>)
    requires ch.Nothing? || ch.Created? || room.Some?
    requires sock !in socks && (room.Some? ==> room.value.host !in socks && room.value.peers.Values !! socks)
    requires (ch.Created? ==> ch.host == sock) && (ch.ClaimedBy? ==> ch.host == sock) && (ch.Joined? ==> ch.peer == sock)
    ensures var r := Act(room, ch, now).room; r.Some? ==> r.value.host !in socks && r.value.peers.Values !! socks
  {
  }

  /** A change of another room leaves this room's sockets in no other. */
  lemma ApartAfter(reg: Registry, now: int, ev: Event, o: Outcome, rid: string, ch: Change, id: string, socks: set<Socket>)
    requires Acts(reg, now, ev, o, rid, ch) && Apart(reg, id, socks)
    requires ev.HelloEvent? ==> ev.sock !in socks
    ensures Apart(o.reg, id, socks)
  {
    hide Act;
    forall r | r in o.reg.rooms && r != id ensures o.reg.rooms[r].host !in socks && o.reg.rooms[r].peers.Values !! socks {
      if r == rid { RoomApart(reg, now, ev, o, rid, ch, socks); } else { assert o.reg.rooms[r] == reg.rooms[r]; }
    }
  }

  lemma RoomApart(reg: Registry, now: int, ev: Event, o: Outcome, rid: string, ch: Change, socks: set<Socket>)
    requires Acts(reg, now, ev, o, rid, ch) && (rid in reg.rooms ==> reg.rooms[rid].host !in socks && reg.rooms[rid].peers.Values !! socks)
    requires ev.HelloEvent? ==> ev.sock !in socks
    requires rid in o.reg.rooms
    ensures o.reg.rooms[rid].host !in socks && o.reg.rooms[rid].peers.Values !! socks
  {
    hide FromPeer, Claim, Join;
    if ev.HelloEvent? {
      MembersApart(Lookup(reg.rooms, rid), ch, now, ev.sock, socks);
    } else {
      MembersKept(Lookup(reg.rooms, rid), ch, now, socks);
    }
  }

  lemma MembersKept(room: Option<Room>, ch: Change, now: int, socks: set<Socket>)
    requires ch.Nothing? || room.Some?
    requires !ch.Created? && !ch.ClaimedBy? && !ch.Joined?
    requires room.Some? ==> room.value.host !in socks && room.value.peers.Values !! socks
    ensures var r := Act(room, ch, now).room; r.Some? ==> r.value.host !in socks && r.value.peers.Values !! socks
  {
  }

  /** An event about another room, or about none, moves no attachment of this room but a host's leaving. */
  lemma AttachedElsewhere(reg: Registry, now: int, ev: Event, o: Outcome, rid: string, ch: Change, id: string,
                          peers: map<Socket, nat>, hosts: set<Socket>, used: set<Socket>)
    requires Acts(reg, now, ev, o, rid, ch) && SameAttached(reg.attached, id, peers, hosts)
    requires rid != id || ch.Nothing?
    requires id in reg.rooms && reg.attached.Keys <= used && hosts <= used && (ev.HelloEvent? ==> ev.sock !in used)
    ensures SameAttached(o.reg.attached, id, peers, hosts)
  {
    hide Act, OnlyAnswered;
  }

  lemma UnheardElsewhere(reg: Registry, now: int, ev: Event, o: Outcome, rid: string, ch: Change, id: string, s: Multiplexer.Sys)
    requires Acts(reg, now, ev, o, rid, ch) && Apart(reg, id, s.wires.Keys)
    requires rid != id || ch.Nothing?
    requires ev.HelloEvent? || ev.MessageEvent? ==> ev.sock !in s.wires
    ensures Delivered(s, s, o.out)
  {
    hide Act, Multiplexer.Applied;
    forall q | q in s.wires ensures SentTo(o.out, q) == [] {
      if ch.Nothing? {
        if ev.CloseEvent? { assert o.out == []; }
        ReachesNobody(o.out, s.wires.Keys, q);
      } else {
        OthersAreNamed(reg, now, ev, o, rid, ch, id, s.wires.Keys);
        ReachesNobody(o.out, s.wires.Keys, q);
      }
      assert s.wires[q].down + [] == s.wires[q].down;
    }
  }

  lemma OthersAreNamed(reg: Registry, now: int, ev: Event, o: Outcome, rid: string, ch: Change, id: string, socks: set<Socket>)
    requires Acts(reg, now, ev, o, rid, ch) && Apart(reg, id, socks) && rid != id && !ch.Nothing?
    requires ev.HelloEvent? || ev.MessageEvent? ==> ev.sock !in socks
    ensures forall e | e in o.out :: e.sock !in socks
  {
    hide Act;
    if ev.CloseEvent? {
      ClosingNames(Lookup(reg.rooms, rid), ch, now);
    } else {
      ActNames(Lookup(reg.rooms, rid), ch, now, ev.sock);
    }
  }

  lemma ClosingNames(room: Option<Room>, ch: Change, now: int)
    requires room.Some? && (ch.PeerLeft? || ch.HostLeft?)
    ensures forall e | e in Act(room, ch, now).out :: e.sock == room.value.host || e.sock in room.value.peers.Values
  {
    TeardownNames(room.value.peers, room.value.nextConnId);
  }

  /** An event that is not this room's leaves the end-to-end model where it is. */
  lemma ElsewhereFollows(reg: Registry, lim: Limits, now: int, ev: Event, rid: string, ch: Change, id: string, s: Multiplexer.Sys, used: set<Socket>)
    requires Follows(reg, lim, id, s, used) && !ev.SweepEvent?
    requires Acts(reg, now, ev, Step(reg, lim, now, ev), rid, ch) && (rid != id || ch.Nothing?)
    requires (ev.HelloEvent? ==> ev.sock !in used) && (ev.MessageEvent? ==> ev.sock !in s.wires)
    ensures var o := Step(reg, lim, now, ev);
            Follows(o.reg, lim, id, s, Using(used, ev)) && Delivered(s, s, o.out)
  {
    hide Acts, Inv, Step, MultiplexerTheorems.Reached, SameAttached, Known, Apart;
    var o := Step(reg, lim, now, ev);
    StepKeepsInv(reg, lim, now, ev);
    KnownAfter(reg, now, ev, o, rid, ch, used);
    ApartAfter(reg, now, ev, o, rid, ch, id, s.wires.Keys);
    HostsAreWires(s);
    KnownKeys(reg, used);
    AttachedElsewhere(reg, now, ev, o, rid, ch, id, s.attached, s.ends.Keys, used);
    UnheardElsewhere(reg, now, ev, o, rid, ch, id, s);
    RoomElsewhere(reg, now, ev, o, rid, ch, id);
  }

  lemma KnownKeys(reg: Registry, used: set<Socket>)
    requires Known(reg, used)
    ensures reg.attached.Keys <= used
  {
  }

  lemma RoomElsewhere(reg: Registry, now: int, ev: Event, o: Outcome, rid: string, ch: Change, id: string)
    requires Acts(reg, now, ev, o, rid, ch) && (rid != id || ch.Nothing?) && id in reg.rooms
    ensures id in o.reg.rooms && o.reg.rooms[id] == reg.rooms[id]
  {
  }

  lemma HostsAreWires(s: Multiplexer.Sys)
    requires MultiplexerTheorems.Reached(s)
    ensures s.ends.Keys <= s.wires.Keys && s.room.host in s.ends && (forall p | p in s.attached :: p in s.wires && p !in s.ends)
  {
    hide MultiplexerTheorems.Reached, Multiplexer.HostOk, Multiplexer.FlowsOk;
    MultiplexerTheorems.ReachedKeepsInv(s);
    forall p | p in s.attached ensures p in s.wires && p !in s.ends {
      assert Multiplexer.AttachedOk(p, s.attached[p], s.room, s.severed, s.wires, s.ends.Keys);
    }
  }

  // ----- the end-to-end model's side of one event -----

  lemma JoinDelivers(s: Multiplexer.Sys, p: Socket)
    requires Multiplexer.Enabled(s, Multiplexer.Joins(p))
    ensures var s' := Multiplexer.Next(s, Multiplexer.Joins(p));
            && Delivered(s, s', Join(s.room, p).out) && s'.room == Join(s.room, p).room && s'.over == s.over
            && s'.attached == s.attached[p := s.room.nextConnId] && s'.ends.Keys == s.ends.Keys && s'.wires.Keys == s.wires.Keys + {p}
  {
    hide Join, SentTo;
  }

  lemma ClaimDelivers(s: Multiplexer.Sys, h: Socket)
    requires Multiplexer.Enabled(s, Multiplexer.Claims(h))
    ensures var s' := Multiplexer.Next(s, Multiplexer.Claims(h));
            && Delivered(s, s', Claim(s.room, h).out) && s'.room == Claim(s.room, h).room && s'.over == s.over
            && s'.attached == s.attached && s'.ends.Keys == s.ends.Keys + {h} && s'.wires.Keys == s.wires.Keys + {h}
  {
    hide Claim, SentTo, Multiplexer.Sealed;
  }

  /** What the relay sends for a frame of a member, or of the host, pings included. */
  function PeerOut(room: Room, c: nat, p: Socket, buf: Buffer): seq<Effect> {
    if TypeIs(buf, PING) then [Send(p, Pong)] else FromPeer(room, c, buf).out
  }

  function HostResult(room: Room, buf: Buffer, now: int): Result {
    if TypeIs(buf, PING) then Result(room, [Send(room.host, Pong)]) else FromHost(room, room.host, buf, now)
  }

  lemma PeerFrameDelivers(s: Multiplexer.Sys, p: Socket)
    requires Multiplexer.Enabled(s, Multiplexer.PeerFrame(p))
    ensures var s' := Multiplexer.Next(s, Multiplexer.PeerFrame(p));
            && Delivered(s, s', PeerOut(s.room, s.attached[p], p, s.wires[p].up[s.wires[p].taken]))
            && s'.room == s.room && s'.over == s.over && s'.attached == s.attached && s'.ends.Keys == s.ends.Keys
            && s'.wires.Keys == s.wires.Keys
  {
    hide FromPeer, SentTo;
  }

  lemma HostFrameDelivers(s: Multiplexer.Sys, now: int)
    requires Multiplexer.Enabled(s, Multiplexer.HostFrame(now))
    ensures var s' := Multiplexer.Next(s, Multiplexer.HostFrame(now));
            var r := HostResult(s.room, s.wires[s.room.host].up[s.wires[s.room.host].taken], now);
            && Delivered(s, s', r.out) && s'.room == r.room && s'.over == s.over && s'.attached == s.attached
            && s'.ends.Keys == s.ends.Keys && s'.wires.Keys == s.wires.Keys
  {
    hide FromHost, SentTo, Closed, Multiplexer.Counted;
  }

  lemma PeerCloseDelivers(s: Multiplexer.Sys, p: Socket)
    requires Multiplexer.Enabled(s, Multiplexer.PeerCloses(p))
    ensures var s' := Multiplexer.Next(s, Multiplexer.PeerCloses(p));
            && Delivered(s, s', PeerClosed(s.room, s.attached[p]).out) && s'.room == PeerClosed(s.room, s.attached[p]).room
            && s'.over == s.over && s'.attached == s.attached - {p} && s'.ends.Keys == s.ends.Keys && s'.wires.Keys == s.wires.Keys
  {
    hide PeerClosed, SentTo;
  }

  lemma EndDelivers(s: Multiplexer.Sys)
    requires Multiplexer.Enabled(s, Multiplexer.Ends)
    ensures var s' := Multiplexer.Next(s, Multiplexer.Ends); s'.over && Delivered(s, s', Teardown(s.room))
  {
    hide Teardown, SentTo;
  }

  // ----- this room's own events -----

  /** The next state of the pair: followed on, or the room is over for both. */
  ghost predicate Onward(reg: Registry, lim: Limits, id: string, s: Multiplexer.Sys, used: set<Socket>) {
    if id in reg.rooms then Follows(reg, lim, id, s, used) else s.over && MultiplexerTheorems.Reached(s)
  }

  ghost predicate Projects(reg: Registry, lim: Limits, now: int, ev: Event, id: string, s: Multiplexer.Sys, used: set<Socket>, a: Multiplexer.Action) {
    && Multiplexer.Enabled(s, a)
    && var s', o := Multiplexer.Next(s, a), Step(reg, lim, now, ev);
       Onward(o.reg, lim, id, s', Using(used, ev)) && Delivered(s, s', o.out)
  }

  lemma ApartGrows(reg: Registry, reg': Registry, id: string, socks: set<Socket>, sock: Socket, used: set<Socket>)
    requires Apart(reg, id, socks) && Known(reg, used) && sock !in used
    requires reg'.rooms.Keys == reg.rooms.Keys && forall r | r in reg.rooms && r != id :: reg'.rooms[r] == reg.rooms[r]
    ensures Apart(reg', id, socks + {sock})
  {
  }

  lemma PeerComes(attached: map<Socket, Attached>, id: string, peers: map<Socket, nat>, hosts: set<Socket>, p: Socket, c: nat)
    requires SameAttached(attached, id, peers, hosts) && p !in attached && p !in hosts
    ensures SameAttached(attached[p := AsPeer(id, c)], id, peers[p := c], hosts)
  {
  }

  lemma HostComes(attached: map<Socket, Attached>, id: string, peers: map<Socket, nat>, hosts: set<Socket>, h: Socket)
    requires SameAttached(attached, id, peers, hosts) && h !in attached && h !in peers
    ensures SameAttached(attached[h := AsHost(id)], id, peers, hosts + {h})
  {
  }

  /** What every accepted hello leaves in place. */
  lemma HelloKeeps(reg: Registry, lim: Limits, now: int, ev: Event, id: string, ch: Change, s: Multiplexer.Sys, used: set<Socket>)
    requires Follows(reg, lim, id, s, used) && ev.HelloEvent? && ev.sock !in used && (ch == Joined(ev.sock) || ch == ClaimedBy(ev.sock))
    requires Acts(reg, now, ev, Step(reg, lim, now, ev), id, ch)
    ensures var o := Step(reg, lim, now, ev);
            && Inv(o.reg, lim) && Known(o.reg, used + {ev.sock}) && Apart(o.reg, id, s.wires.Keys + {ev.sock})
            && id in o.reg.rooms && o.reg.rooms[id] == Act(Some(s.room), ch, now).room.value
            && o.out == Act(Some(s.room), ch, now).out
            && o.reg.attached == AttachedAfter(reg, ev, id, ch)
    ensures ev.sock !in s.wires && ev.sock !in reg.attached && ev.sock !in s.ends && ev.sock !in s.attached
  {
    hide Inv, Step, MultiplexerTheorems.Reached, SameAttached, Known, Apart, Join, Claim;
    StepKeepsInv(reg, lim, now, ev);
    KnownAfter(reg, now, ev, Step(reg, lim, now, ev), id, ch, used);
    HostsAreWires(s);
    KnownKeys(reg, used);
    ApartGrows(reg, Step(reg, lim, now, ev).reg, id, s.wires.Keys, ev.sock, used);
  }

  lemma JoinProjects(reg: Registry, lim: Limits, now: int, ev: Event, id: string, s: Multiplexer.Sys, used: set<Socket>)
    requires Follows(reg, lim, id, s, used) && Fair(reg, id, s, used, ev) && ev.HelloEvent? && ev.hello.roomId == id
    requires Acts(reg, now, ev, Step(reg, lim, now, ev), id, Joined(ev.sock))
    ensures Projects(reg, lim, now, ev, id, s, used, Multiplexer.Joins(ev.sock))
  {
    hide Inv, Step, MultiplexerTheorems.Reached, Join, Multiplexer.Next, Multiplexer.Enabled, Delivered, Known, Apart, SameAttached, Acts;
    var p := ev.sock;
    HelloKeeps(reg, lim, now, ev, id, Joined(p), s, used);
    MultiplexerTheorems.GuardsAreHypotheses(s, p, now);
    JoinDelivers(s, p);
    ReachedNext(s, Multiplexer.Joins(p));
    PeerComes(reg.attached, id, s.attached, s.ends.Keys, p, s.room.nextConnId);
  }

  lemma ClaimIsPending(reg: Registry, lim: Limits, now: int, ev: Event, id: string, s: Multiplexer.Sys, used: set<Socket>)
    requires Follows(reg, lim, id, s, used) && ev.HelloEvent?
    requires Acts(reg, now, ev, Step(reg, lim, now, ev), id, ClaimedBy(ev.sock))
    ensures s.room.deadline.Some?
  {
    hide Inv, Step, MultiplexerTheorems.Reached, Claim, Known, Apart, SameAttached;
  }

  lemma ClaimProjects(reg: Registry, lim: Limits, now: int, ev: Event, id: string, s: Multiplexer.Sys, used: set<Socket>)
    requires Follows(reg, lim, id, s, used) && Fair(reg, id, s, used, ev) && ev.HelloEvent? && ev.hello.roomId == id
    requires Acts(reg, now, ev, Step(reg, lim, now, ev), id, ClaimedBy(ev.sock))
    ensures Projects(reg, lim, now, ev, id, s, used, Multiplexer.Claims(ev.sock))
  {
    hide Inv, Step, MultiplexerTheorems.Reached, Claim, Multiplexer.Next, Multiplexer.Enabled, Delivered, Known, Apart, SameAttached, Acts;
    var h := ev.sock;
    ClaimIsPending(reg, lim, now, ev, id, s, used);
    HelloKeeps(reg, lim, now, ev, id, ClaimedBy(h), s, used);
    MultiplexerTheorems.GuardsAreHypotheses(s, h, now);
    ClaimDelivers(s, h);
    ReachedNext(s, Multiplexer.Claims(h));
    HostComes(reg.attached, id, s.attached, s.ends.Keys, h);
  }

  lemma SameApart(reg: Registry, reg': Registry, id: string, socks: set<Socket>)
    requires Apart(reg, id, socks)
    requires forall r | r in reg'.rooms && r != id :: r in reg.rooms && reg'.rooms[r] == reg.rooms[r]
    ensures Apart(reg', id, socks)
  {
  }

  lemma PeerMessageProjects(reg: Registry, lim: Limits, now: int, ev: Event, id: string, s: Multiplexer.Sys, used: set<Socket>)
    requires Follows(reg, lim, id, s, used) && Fair(reg, id, s, used, ev) && ev.MessageEvent? && ev.sock in s.attached && ev.sock in s.wires
    requires ev.sock !in s.ends
    ensures Projects(reg, lim, now, ev, id, s, used, Multiplexer.PeerFrame(ev.sock))
  {
    hide Inv, MultiplexerTheorems.Reached, FromPeer, Multiplexer.Next, Multiplexer.Enabled, Delivered, Known, Apart;
    var o, p := Step(reg, lim, now, ev), ev.sock;
    HostsAreWires(s);
    MultiplexerTheorems.GuardsAreHypotheses(s, p, now);
    PeerFrameDelivers(s, p);
    ReachedNext(s, Multiplexer.PeerFrame(p));
    StepKeepsInv(reg, lim, now, ev);
    SameRoom(s.room, s.attached[p], ev.buf);
    assert o.reg.rooms == reg.rooms && o.reg.attached == reg.attached && o.out == PeerOut(s.room, s.attached[p], p, ev.buf);
    SameKnown(reg, o.reg, used);
    SameApart(reg, o.reg, id, s.wires.Keys);
  }

  lemma SameRoom(room: Room, c: nat, buf: Buffer)
    ensures FromPeer(room, c, buf).room == room
  {
  }

  lemma SameKnown(reg: Registry, reg': Registry, used: set<Socket>)
    requires Known(reg, used) && reg'.attached.Keys <= reg.attached.Keys
    requires forall r | r in reg'.rooms :: r in reg.rooms && reg'.rooms[r].host == reg.rooms[r].host
                                           && reg'.rooms[r].peers.Values <= reg.rooms[r].peers.Values
    ensures Known(reg', used)
  {
  }

  lemma HostMessageProjects(reg: Registry, lim: Limits, now: int, ev: Event, id: string, s: Multiplexer.Sys, used: set<Socket>)
    requires Follows(reg, lim, id, s, used) && Fair(reg, id, s, used, ev) && ev.MessageEvent? && ev.sock == s.room.host && ev.sock in s.wires
    ensures Projects(reg, lim, now, ev, id, s, used, Multiplexer.HostFrame(now))
  {
    hide Inv, MultiplexerTheorems.Reached, FromHost, Multiplexer.Next, Multiplexer.Enabled, Delivered, Known, Apart;
    var o, h := Step(reg, lim, now, ev), ev.sock;
    HostsAreWires(s);
    MultiplexerTheorems.GuardsAreHypotheses(s, h, now);
    HostFrameDelivers(s, now);
    ReachedNext(s, Multiplexer.HostFrame(now));
    StepKeepsInv(reg, lim, now, ev);
    var r := HostResult(s.room, ev.buf, now);
    HostFrameMembers(s.room, ev.buf, now);
    assert reg.attached[h] == AsHost(id);
    assert o.reg.rooms == reg.rooms[id := r.room] && o.reg.attached == reg.attached && o.out == r.out;
    SameKnown(reg, o.reg, used);
    SameApart(reg, o.reg, id, s.wires.Keys);
  }

  lemma HostFrameMembers(room: Room, buf: Buffer, now: int)
    ensures var r := HostResult(room, buf, now).room; r.host == room.host && r.peers.Values <= room.peers.Values
  {
  }

  lemma PeerCloseRegistry(reg: Registry, sock: Socket, id: string)
    requires sock in reg.attached && reg.attached[sock].AsPeer? && reg.attached[sock].roomId == id && id in reg.rooms
    ensures var r := PeerClosed(reg.rooms[id], reg.attached[sock].connId);
            OnClose(reg, sock) == Outcome(reg.(rooms := reg.rooms[id := r.room], attached := reg.attached - {sock}), r.out)
    ensures var r := PeerClosed(reg.rooms[id], reg.attached[sock].connId).room;
            r.host == reg.rooms[id].host && r.peers.Values <= reg.rooms[id].peers.Values
  {
  }

  lemma PeerLeaves(attached: map<Socket, Attached>, id: string, peers: map<Socket, nat>, hosts: set<Socket>, p: Socket)
    requires SameAttached(attached, id, peers, hosts) && p in peers
    ensures p in attached && attached[p] == AsPeer(id, peers[p])
    ensures SameAttached(attached - {p}, id, peers - {p}, hosts)
  {
  }

  lemma PeerCloseProjects(reg: Registry, lim: Limits, now: int, ev: Event, id: string, s: Multiplexer.Sys, used: set<Socket>)
    requires Follows(reg, lim, id, s, used) && ev.CloseEvent? && ev.sock in s.attached
    ensures Projects(reg, lim, now, ev, id, s, used, Multiplexer.PeerCloses(ev.sock))
  {
    hide Inv, MultiplexerTheorems.Reached, Delivered, Known, Apart, SameAttached, Multiplexer.Next, OnClose, PeerClosed;
    var p := ev.sock;
    PeerCloseDelivers(s, p);
    ReachedNext(s, Multiplexer.PeerCloses(p));
    StepKeepsInv(reg, lim, now, ev);
    PeerLeaves(reg.attached, id, s.attached, s.ends.Keys, p);
    PeerCloseRegistry(reg, p, id);
    var o := OnClose(reg, p);
    assert Step(reg, lim, now, ev) == o;
    SameKnown(reg, o.reg, used);
    SameApart(reg, o.reg, id, s.wires.Keys);
    hide Step;
  }

  lemma HostCloseProjects(reg: Registry, lim: Limits, now: int, ev: Event, id: string, s: Multiplexer.Sys, used: set<Socket>)
    requires Follows(reg, lim, id, s, used) && ev.CloseEvent?
    requires Acts(reg, now, ev, Step(reg, lim, now, ev), id, HostLeft)
    ensures Projects(reg, lim, now, ev, id, s, used, Multiplexer.Ends)
  {
    hide Inv, Step, MultiplexerTheorems.Reached, Delivered, Known, Apart, Multiplexer.Next, Teardown;
    EndDelivers(s);
    ReachedNext(s, Multiplexer.Ends);
  }

  // ----- sweeps -----

  lemma {:induction false} SweepMisses(rooms: map<string, Room>, order: seq<string>, now: int, q: Socket)
    requires forall r | r in rooms && Expired(rooms[r], now) :: q !in rooms[r].peers.Values
    ensures SentTo(SweepNotices(rooms, order, now), q) == []
  {
    hide SentTo, Teardown, Expired;
    if order == [] {
      RelayHandoff.SentToNothing(q);
    } else {
      var before, last := order[..|order| - 1], order[|order| - 1];
      SweepMisses(rooms, before, now, q);
      if last in rooms && Expired(rooms[last], now) {
        TeardownMisses(rooms[last], q);
        SentToConcat(SweepNotices(rooms, before, now), Teardown(rooms[last]), q);
      }
    }
  }

  lemma TeardownMisses(room: Room, q: Socket)
    requires q !in room.peers.Values
    ensures SentTo(Teardown(room), q) == []
  {
    TeardownNames(room.peers, room.nextConnId);
    ReachesNobody(Teardown(room), {q}, q);
  }

  /** What a sweep puts on this room's sockets is this room's own teardown, if it has expired. */
  lemma SweepHears(reg: Registry, lim: Limits, now: int, order: seq<string>, id: string, socks: set<Socket>, q: Socket)
    requires Inv(reg, lim) && id in reg.rooms && Apart(reg, id, socks) && q in socks
    requires RelayHandoff.WellFormed(reg, SweepEvent(order))
    ensures SentTo(SweepNotices(reg.rooms, order, now), q)
            == if Expired(reg.rooms[id], now) then SentTo(Teardown(reg.rooms[id]), q) else []
  {
    hide SentTo, Teardown, SweepNotices, Expired;
    forall r | r in reg.rooms
      ensures OneIdEach(reg.rooms[r].peers) && forall c | c in reg.rooms[r].peers :: c < reg.rooms[r].nextConnId
    {
      assert RoomInv(reg.rooms[r], reg.attached, lim, r);
      RelayHandoff.DistinctPeers(reg.rooms[r], reg.attached, lim, r);
    }
    if Expired(reg.rooms[id], now) && q in reg.rooms[id].peers.Values {
      RelayHandoff.SweepNoticesReach(reg.rooms, order, now, id, q);
      RelayHandoff.TeardownOne(reg.rooms[id], q);
    } else {
      SweepMisses(reg.rooms, order, now, q);
      if Expired(reg.rooms[id], now) { TeardownMisses(reg.rooms[id], q); }
    }
  }

  lemma SweepProjects(reg: Registry, lim: Limits, now: int, ev: Event, id: string, s: Multiplexer.Sys, used: set<Socket>)
    requires Follows(reg, lim, id, s, used) && Fair(reg, id, s, used, ev) && ev.SweepEvent?
    ensures Expired(s.room, now) ==> Projects(reg, lim, now, ev, id, s, used, Multiplexer.Ends)
    ensures !Expired(s.room, now) ==> var o := Step(reg, lim, now, ev); Follows(o.reg, lim, id, s, used) && Delivered(s, s, o.out)
  {
    hide Inv, MultiplexerTheorems.Reached, Known, Apart, Multiplexer.Next, Teardown, SweepNotices, SentTo, Expired, SweepRates;
    var o := Step(reg, lim, now, ev);
    forall q | q in s.wires ensures SentTo(o.out, q) == if Expired(s.room, now) then SentTo(Teardown(s.room), q) else [] {
      SweepHears(reg, lim, now, ev.order, id, s.wires.Keys, q);
    }
    if Expired(s.room, now) {
      EndDelivers(s);
      ReachedNext(s, Multiplexer.Ends);
    } else {
      StepKeepsInv(reg, lim, now, ev);
      SameKnown(reg, o.reg, used);
      SameApart(reg, o.reg, id, s.wires.Keys);
      assert forall q | q in s.wires :: s.wires[q].down + [] == s.wires[q].down;
    }
  }

  // ----- the projection -----

  /** The end-to-end model's step for an event of the registry: none, or the one that is about this room. */
  function Mirror(reg: Registry, lim: Limits, now: int, ev: Event, id: string, s: Multiplexer.Sys): seq<Multiplexer.Action> {
    match ev
    case SweepEvent(_) => if Expired(s.room, now) then [Multiplexer.Ends] else []
    case MessageEvent(sock, _) =>
      if sock !in s.wires then [] else if sock == s.room.host then [Multiplexer.HostFrame(now)] else [Multiplexer.PeerFrame(sock)]
    case CloseEvent(sock) =>
      if sock in s.attached then [Multiplexer.PeerCloses(sock)]
      else if sock == s.room.host && sock in reg.attached && s.room.deadline.None? then [Multiplexer.Ends]
      else []
    case HelloEvent(sock, _) =>
      var attached := Step(reg, lim, now, ev).reg.attached;
      if sock !in attached || attached[sock].roomId != id then []
      else if attached[sock].AsPeer? then [Multiplexer.Joins(sock)]
      else [Multiplexer.Claims(sock)]
  }

  /** Fit to be this event's step: enabled and in agreement, or nothing at all happening to the room. */
  ghost predicate Mirrors(reg: Registry, lim: Limits, now: int, ev: Event, id: string, s: Multiplexer.Sys, used: set<Socket>,
                          acts: seq<Multiplexer.Action>)
  {
    && |acts| <= 1
    && (acts != [] ==> Projects(reg, lim, now, ev, id, s, used, acts[0]))
    && (acts == [] ==> var o := Step(reg, lim, now, ev); Follows(o.reg, lim, id, s, Using(used, ev)) && Delivered(s, s, o.out))
  }

  lemma HelloMirrors(reg: Registry, lim: Limits, now: int, ev: Event, id: string, s: Multiplexer.Sys, used: set<Socket>)
    requires Follows(reg, lim, id, s, used) && Fair(reg, id, s, used, ev) && ev.HelloEvent?
    ensures Mirrors(reg, lim, now, ev, id, s, used, Mirror(reg, lim, now, ev, id, s))
  {
    hide Step, Delivered, Projects, MultiplexerTheorems.Reached, Inv, Known, Apart, SameAttached;
    KnownKeys(reg, used);
    var rid, ch := OneRoomAtATime(reg, lim, now, ev);
    if rid != id || ch.Nothing? {
      ElsewhereFollows(reg, lim, now, ev, rid, ch, id, s, used);
    } else if ch.Joined? {
      JoinProjects(reg, lim, now, ev, id, s, used);
    } else {
      ClaimProjects(reg, lim, now, ev, id, s, used);
    }
  }

  lemma CloseMirrors(reg: Registry, lim: Limits, now: int, ev: Event, id: string, s: Multiplexer.Sys, used: set<Socket>)
    requires Follows(reg, lim, id, s, used) && ev.CloseEvent?
    ensures Mirrors(reg, lim, now, ev, id, s, used, Mirror(reg, lim, now, ev, id, s))
  {
    hide Step, Delivered, Projects, MultiplexerTheorems.Reached, Inv, Known, Apart;
    HostsAreWires(s);
    if ev.sock in s.attached {
      PeerCloseProjects(reg, lim, now, ev, id, s, used);
    } else {
      var rid, ch := OneRoomAtATime(reg, lim, now, ev);
      if rid != id || ch.Nothing? {
        ElsewhereFollows(reg, lim, now, ev, rid, ch, id, s, used);
      } else {
        HostCloseProjects(reg, lim, now, ev, id, s, used);
      }
    }
  }

  lemma MessageMirrors(reg: Registry, lim: Limits, now: int, ev: Event, id: string, s: Multiplexer.Sys, used: set<Socket>)
    requires Follows(reg, lim, id, s, used) && Fair(reg, id, s, used, ev) && ev.MessageEvent?
    ensures Mirrors(reg, lim, now, ev, id, s, used, Mirror(reg, lim, now, ev, id, s))
  {
    hide Step, Delivered, Projects, MultiplexerTheorems.Reached, Inv, Known, Apart;
    HostsAreWires(s);
    if ev.sock !in s.wires {
      var rid, ch := OneRoomAtATime(reg, lim, now, ev);
      if rid == id { NobodyElse(reg, now, ev, Step(reg, lim, now, ev), id, ch, s); }
      ElsewhereFollows(reg, lim, now, ev, rid, ch, id, s, used);
    } else if ev.sock == s.room.host {
      HostMessageProjects(reg, lim, now, ev, id, s, used);
    } else {
      PeerMessageProjects(reg, lim, now, ev, id, s, used);
    }
  }

  /**
   * Every fair event of the registry is, for this room's sockets, nothing or one enabled step of the end-to-end
   * model: the same room, the same attachments and the same frames on the same sockets.
   */
  lemma EventProjects(reg: Registry, lim: Limits, now: int, ev: Event, id: string, s: Multiplexer.Sys, used: set<Socket>)
    requires Follows(reg, lim, id, s, used) && Fair(reg, id, s, used, ev)
    ensures Mirrors(reg, lim, now, ev, id, s, used, Mirror(reg, lim, now, ev, id, s))
  {
    match ev
    case SweepEvent(_) => SweepProjects(reg, lim, now, ev, id, s, used);
    case MessageEvent(_, _) => MessageMirrors(reg, lim, now, ev, id, s, used);
    case CloseEvent(_) => CloseMirrors(reg, lim, now, ev, id, s, used);
    case HelloEvent(_, _) => HelloMirrors(reg, lim, now, ev, id, s, used);
  }

  /** Whoever is attached to the room speaks on one of its sockets, and the room is not created twice. */
  lemma NobodyElse(reg: Registry, now: int, ev: Event, o: Outcome, id: string, ch: Change, s: Multiplexer.Sys)
    requires Acts(reg, now, ev, o, id, ch) && id in reg.rooms && SameAttached(reg.attached, id, s.attached, s.ends.Keys)
    requires s.ends.Keys <= s.wires.Keys && s.attached.Keys <= s.wires.Keys && (ev.MessageEvent? ==> ev.sock !in s.wires)
    ensures ev.MessageEvent? ==> ch.Nothing?
  {
  }

  // ----- whole runs -----

  /** The relay takes an event, or one of the room's clients does something of its own. */
  datatype Turn = ByRelay(now: int, ev: Event) | ByClient(a: Multiplexer.Action)

  predicate OfClient(a: Multiplexer.Action) {
    a.PeerSends? || a.HostSends? || a.HostKicks? || a.HostSignals? || a.HostReads? || a.HostListens? || a.HostDrops?
  }

  lemma ClientKeeps(reg: Registry, lim: Limits, id: string, s: Multiplexer.Sys, used: set<Socket>, a: Multiplexer.Action)
    requires Follows(reg, lim, id, s, used) && OfClient(a) && Multiplexer.Enabled(s, a)
    ensures Follows(reg, lim, id, Multiplexer.Next(s, a), used)
  {
    hide Inv, MultiplexerTheorems.Reached, SameAttached, Known, Apart;
    ReachedNext(s, a);
    ClientShape(s, a);
    hide Multiplexer.Next, Multiplexer.Enabled;
  }

  lemma ClientShape(s: Multiplexer.Sys, a: Multiplexer.Action)
    requires OfClient(a) && Multiplexer.Enabled(s, a)
    ensures var s' := Multiplexer.Next(s, a);
            && s'.room == s.room && s'.over == s.over && s'.attached == s.attached && s'.severed == s.severed
            && s'.ends.Keys == s.ends.Keys && s'.wires.Keys == s.wires.Keys
  {
  }

  function Moved(s: Multiplexer.Sys, acts: seq<Multiplexer.Action>): Multiplexer.Sys {
    if acts != [] && Multiplexer.Enabled(s, acts[0]) then Multiplexer.Next(s, acts[0]) else s
  }

  /** Each turn is fair where it comes, clients do what they can, and the run stops when the room is gone. */
  ghost predicate Playable(reg: Registry, lim: Limits, id: string, s: Multiplexer.Sys, used: set<Socket>, turns: seq<Turn>)
    decreases |turns|
  {
    turns == [] ||
    match turns[0]
    case ByClient(a) => OfClient(a) && Multiplexer.Enabled(s, a) && Playable(reg, lim, id, Multiplexer.Next(s, a), used, turns[1..])
    case ByRelay(now, ev) =>
      && Fair(reg, id, s, used, ev)
      && var reg' := Step(reg, lim, now, ev).reg;
         if id in reg'.rooms
         then Playable(reg', lim, id, Moved(s, Mirror(reg, lim, now, ev, id, s)), Using(used, ev), turns[1..])
         else turns[1..] == []
  }

  function Relayed(turns: seq<Turn>): seq<Timed> {
    if turns == [] then []
    else if turns[0].ByRelay? then [Timed(turns[0].now, turns[0].ev)] + Relayed(turns[1..])
    else Relayed(turns[1..])
  }

  function UsedAfter(used: set<Socket>, turns: seq<Turn>): set<Socket>
    decreases |turns|
  {
    if turns == [] then used
    else if turns[0].ByRelay? then UsedAfter(Using(used, turns[0].ev), turns[1..])
    else UsedAfter(used, turns[1..])
  }

  lemma LegalCons(s: Multiplexer.Sys, acts: seq<Multiplexer.Action>, rest: seq<Multiplexer.Action>)
    requires |acts| <= 1 && (acts != [] ==> Multiplexer.Enabled(s, acts[0]))
    requires MultiplexerTheorems.Legal(Moved(s, acts), rest)
    ensures MultiplexerTheorems.Legal(s, acts + rest)
    ensures MultiplexerTheorems.After(s, acts + rest) == MultiplexerTheorems.After(Moved(s, acts), rest)
  {
    hide Multiplexer.Next, Multiplexer.Enabled;
    if acts == [] {
      assert acts + rest == rest;
    } else {
      assert (acts + rest)[0] == acts[0] && (acts + rest)[1..] == rest;
    }
  }

  /**
   * A whole run of the registry, with the room's clients acting in between, is a legal run of the end-to-end
   * model as far as this room goes: every result of MultiplexerTheorems is about the registry's room.
   */
  lemma {:induction false} RunProjects(reg: Registry, lim: Limits, id: string, s: Multiplexer.Sys, used: set<Socket>, turns: seq<Turn>)
      returns (run: seq<Multiplexer.Action>)
    requires Follows(reg, lim, id, s, used) && Playable(reg, lim, id, s, used, turns)
    ensures MultiplexerTheorems.Legal(s, run)
    ensures Onward(Run(reg, lim, Relayed(turns)), lim, id, MultiplexerTheorems.After(s, run), UsedAfter(used, turns))
    decreases |turns|
  {
    hide Follows, Fair, Step, Multiplexer.Next, Multiplexer.Enabled, Delivered, Mirror;
    if turns == [] {
      assert Onward(reg, lim, id, s, used) by { FollowsIsOnward(reg, lim, id, s, used); }
      return [];
    }
    match turns[0]
    case ByClient(a) =>
      ClientKeeps(reg, lim, id, s, used, a);
      var rest := RunProjects(reg, lim, id, Multiplexer.Next(s, a), used, turns[1..]);
      LegalCons(s, [a], rest);
      return [a] + rest;
    case ByRelay(now, ev) =>
      EventProjects(reg, lim, now, ev, id, s, used);
      var acts, o := Mirror(reg, lim, now, ev, id, s), Step(reg, lim, now, ev);
      assert Onward(o.reg, lim, id, Moved(s, acts), Using(used, ev)) by {
        if acts == [] { FollowsIsOnward(o.reg, lim, id, s, Using(used, ev)); }
      }
      assert Run(reg, lim, Relayed(turns)) == Run(o.reg, lim, Relayed(turns[1..])) by {
        assert Relayed(turns)[1..] == Relayed(turns[1..]);
      }
      var rest := [];
      if id in o.reg.rooms { rest := RunProjects(o.reg, lim, id, Moved(s, acts), Using(used, ev), turns[1..]); }
      LegalCons(s, acts, rest);
      return acts + rest;
  }

  lemma FollowsIsOnward(reg: Registry, lim: Limits, id: string, s: Multiplexer.Sys, used: set<Socket>)
    requires Follows(reg, lim, id, s, used)
    ensures Onward(reg, lim, id, s, used) && id in reg.rooms
  {
  }

  /** A host's hello that creates the room starts the two together, if no socket of an earlier room of that name lingers. */
  lemma CreationStarts(reg: Registry, lim: Limits, now: int, ev: Event, id: string, used: set<Socket>)
    requires Inv(reg, lim) && Known(reg, used) && ev.HelloEvent? && ev.sock !in used
    requires forall q | q in reg.attached :: reg.attached[q].roomId != id
    requires Acts(reg, now, ev, Step(reg, lim, now, ev), id, Created(ev.sock))
    ensures var o := Step(reg, lim, now, ev);
            && Follows(o.reg, lim, id, Multiplexer.Initial(ev.sock), used + {ev.sock})
            && SentTo(o.out, ev.sock) == Multiplexer.Initial(ev.sock).wires[ev.sock].down
  {
    hide Inv, Step, Known, Multiplexer.Inv, MultiplexerTheorems.Reached;
    var o, h := Step(reg, lim, now, ev), ev.sock;
    StepKeepsInv(reg, lim, now, ev);
    KnownAfter(reg, now, ev, o, id, Created(h), used);
    InitialReached(h);
    KnownHosts(reg, used);
    assert [Send(h, Ready(None))][..0] == [];
  }

  lemma KnownHosts(reg: Registry, used: set<Socket>)
    requires Known(reg, used)
    ensures reg.attached.Keys <= used && forall r | r in reg.rooms :: reg.rooms[r].host in used && reg.rooms[r].peers.Values <= used
  {
  }

  lemma InitialReached(h: Socket)
    ensures MultiplexerTheorems.Reached(Multiplexer.Initial(h))
  {
    assert MultiplexerTheorems.Legal(Multiplexer.Initial(h), []) && MultiplexerTheorems.After(Multiplexer.Initial(h), []) == Multiplexer.Initial(h);
  }
}
