/** That things arrive: what one frame, signal, arrival or departure comes to at the other end of a quiet room. */
module MultiplexerProgress {
  import opened Bytes
  import opened RelayWire
  import opened ClientWire
  import opened RelayRoom
  import opened RelayLink
  import opened Streams
  import opened Multiplexer
  import opened MultiplexerTheorems

  /** A reachable room with no handoff pending, whose host's link is open and has nothing in flight either way. */
  ghost predicate Quiet(s: Sys) {
    && Reached(s) && !s.over && s.room.deadline.None? && s.room.host in s.ends && s.room.host in s.wires
    && !s.ends[s.room.host].link.closed
    && s.wires[s.room.host].read == |s.wires[s.room.host].down| && s.wires[s.room.host].taken == |s.wires[s.room.host].up|
  }

  ghost predicate Member(s: Sys, p: Socket, c: nat) { c in s.room.peers && s.room.peers[c] == p }

  function HostLinkOf(s: Sys): HostLink
    requires s.room.host in s.ends
  {
    s.ends[s.room.host].link
  }

  /** Where the host's link keeps the transport of a member. */
  ghost predicate At(s: Sys, c: nat, i: nat)
    requires s.room.host in s.ends
  {
    var l := HostLinkOf(s);
    c in l.peers && l.peers[c] == i && i < |l.vts| && l.vts[i].connId == c && !l.vts[i].closed
  }

  lemma QuietFacts(s: Sys)
    requires Quiet(s)
    ensures Inv(s) && LinkInv(HostLinkOf(s)) && HostLinkOf(s).peers.Keys == s.room.peers.Keys && s.room.nextConnId <= CONN_ID_LIMIT
  {
    hide Reached;
    ReachedKeepsInv(s);
    var h := s.room.host;
    assert HostOk(s.ends[h], s.wires[h], s.room.nextConnId);
    assert s.wires[h].down[s.wires[h].read..] == [] && s.wires[h].up[s.wires[h].taken..] == [];
    assert Settle(HostLinkOf(s).peers.Keys, []) == HostLinkOf(s).peers.Keys && Kicked([]) == {};
  }

  lemma MemberFacts(s: Sys, p: Socket, c: nat) returns (i: nat)
    requires Quiet(s) && Member(s, p, c)
    ensures At(s, c, i) && LinkInv(HostLinkOf(s))
    ensures p in s.wires && p != s.room.host && p in s.attached && s.attached[p] == c && p !in s.severed && c < CONN_ID_LIMIT
    ensures c in s.ends[s.room.host].flows && s.wires[p].taken <= |s.wires[p].up|
  {
    hide Reached, HostsOk, OpenOk, ViewOk, Counting, LinkInv;
    QuietFacts(s);
    assert MemberOk(c, p, s.attached, s.severed);
    assert AttachedOk(p, c, s.room, s.severed, s.wires, s.ends.Keys);
    i := HostLinkOf(s).peers[c];
    MappedOpen(HostLinkOf(s), c);
  }

  lemma MappedOpen(l: HostLink, c: nat)
    requires LinkInv(l) && c in l.peers
    ensures l.peers[c] < |l.vts| && l.vts[l.peers[c]].connId == c && !l.vts[l.peers[c]].closed
  {
  }

  lemma SentOne(e: Effect, q: Socket)
    ensures SentTo([e], q) == Reaching(e, q) && SentTo([], q) == []
  {
    assert [e][..0] == [];
  }

  // ----- a peer's payload reaches its transport -----

  lemma PeerSendsOne(s: Sys, p: Socket, c: nat, x: Payload)
    requires Quiet(s) && Member(s, p, c) && p in s.wires && s.wires[p].taken == |s.wires[p].up|
    ensures Enabled(s, PeerSends(p, EncodeDataP(x)))
    ensures Next(s, PeerSends(p, EncodeDataP(x))) == s.(wires := s.wires[p := s.wires[p].(up := s.wires[p].up + [EncodeDataP(x)])])
  {
    var i := MemberFacts(s, p, c);
    hide Reached, LinkInv;
  }

  /**
   * What a member sends is taken by the relay, reaches the host's link, and is heard by that member's transport and by
   * no other: by its handler if the link is wired.
   */
  lemma UpGoesThrough(s: Sys, p: Socket, c: nat, x: Payload)
    requires Quiet(s) && Member(s, p, c) && p in s.wires && s.wires[p].taken == |s.wires[p].up| && HostLinkOf(s).wired
    ensures c in HostLinkOf(s).peers && HostLinkOf(s).peers[c] < |HostLinkOf(s).vts| && Enabled(s, PeerSends(p, EncodeDataP(x)))
    ensures var h := s.room.host;
            var s1 := Next(s, PeerSends(p, EncodeDataP(x)));
            var i, l := HostLinkOf(s).peers[c], HostLinkOf(s);
            && Enabled(s1, PeerFrame(p))
            && var s2 := Next(s1, PeerFrame(p));
               Enabled(s2, HostReads(h))
               && var s3 := Next(s2, HostReads(h));
                  && s3.room == s.room && h in s3.ends
                  && HostLinkOf(s3) == l.(vts := l.vts[i := l.vts[i].(heard := l.vts[i].heard + [x])])
  {
    hide Reached, LinkInv;
    var i := MemberFacts(s, p, c);
    var h := s.room.host;
    PeerSendsOne(s, p, c, x);
    var s1 := Next(s, PeerSends(p, EncodeDataP(x)));
    PeerToHostHop(c, x);
    var out := [Send(h, Raw(DataToHost(c, x)))];
    SentOne(out[0], h);
    Taken(s1, p, c, x);
    var s2 := Next(s1, PeerFrame(p));
    assert s2.wires[h].down[s2.wires[h].read] == Raw(DataToHost(c, x));
    HeardExactlyWhenWired(HostLinkOf(s), DataToHost(c, x), c, x);
    LinkPlaces(HostLinkOf(s));
    hide OnFrame;
  }

  lemma LinkPlaces(l: HostLink)
    requires LinkInv(l)
    ensures forall c | c in l.peers :: l.peers[c] < |l.vts|
  {
  }

  lemma Taken(s: Sys, p: Socket, c: nat, x: Payload)
    requires !s.over && s.room.deadline.None? && s.room.host in s.ends && s.room.host in s.wires && c in s.ends[s.room.host].flows
    requires p in s.attached && s.attached[p] == c && p !in s.severed && p in s.wires && p != s.room.host && c < CONN_ID_LIMIT
    requires s.wires[p].taken < |s.wires[p].up| && s.wires[p].up[s.wires[p].taken] == EncodeDataP(x)
    ensures Enabled(s, PeerFrame(p))
    ensures var r, h := Next(s, PeerFrame(p)), s.room.host;
            && r.room == s.room && h in r.wires && h in r.ends && r.ends[h].link == s.ends[h].link && r.ends.Keys == s.ends.Keys
            && r.wires[h] == s.wires[h].(down := s.wires[h].down + [Raw(DataToHost(c, x))])
  {
    PeerToHostHop(c, x);
    SentOne(Send(s.room.host, Raw(DataToHost(c, x))), s.room.host);
    hide EncodeDataP, DataToHost, DecodeDataFromPeer, DecodeData, SentTo;
  }

  // ----- the host's payload, kick and signals -----

  lemma HostWrites(s: Sys, h: Socket, frame: Buffer, now: int)
    requires !s.over && s.room.host == h && h in s.ends && h in s.wires && s.wires[h].taken == |s.wires[h].up|
    ensures var s1 := s.(wires := Written(s.wires, h, [frame]));
            && Enabled(s1, HostFrame(now))
            && var r, res := Next(s1, HostFrame(now)),
                             if TypeIs(frame, PING) then Result(s.room, [Send(h, Pong)]) else RelayRoom.FromHost(s.room, h, frame, now);
               && r.room == res.room && r.severed == s.severed + Closed(res.out) && r.attached == s.attached && r.wires.Keys == s.wires.Keys
               && r.ends.Keys == s.ends.Keys && r.ends[h].link == s.ends[h].link
               && forall q | q in s.wires :: r.wires[q].down == s.wires[q].down + SentTo(res.out, q)
  {
    hide RelayRoom.FromHost, SentTo, Closed;
  }

  /** What the host sends a member is taken by the relay and put, untagged, on that member's socket and no other. */
  lemma DownGoesThrough(s: Sys, p: Socket, c: nat, x: Payload, now: int)
    requires Quiet(s) && Member(s, p, c)
    ensures c in HostLinkOf(s).peers
    ensures var h, i := s.room.host, HostLinkOf(s).peers[c];
            && Enabled(s, HostSends(h, i, x))
            && var s1 := Next(s, HostSends(h, i, x));
               Enabled(s1, HostFrame(now))
               && var s2 := Next(s1, HostFrame(now));
                  && s2.room == s.room
                  && forall q | q in s.wires :: q in s2.wires && s2.wires[q].down == s.wires[q].down + if q == p then [Raw(DataToPeer(x))] else []
  {
    hide Reached, LinkInv, SentTo, Next, DataToPeer;
    var i := MemberFacts(s, p, c);
    var h := s.room.host;
    TransmitsExactlyWhen(HostLinkOf(s), i, x);
    SendsIs(s, h, i, x);
    Routes(s.room, h, c, x, now);
    HostWrites(s, h, EncodeDataH(c, x), now);
    forall q ensures SentTo([Send(p, Raw(DataToPeer(x)))], q) == if q == p then [Raw(DataToPeer(x))] else [] {
      SentOne(Send(p, Raw(DataToPeer(x))), q);
    }
    hide EncodeDataH;
  }

  lemma Routes(room: Room, h: Socket, c: U32, x: Payload, now: int)
    requires c in room.peers
    ensures !TypeIs(EncodeDataH(c, x), PING)
    ensures RelayRoom.FromHost(room, h, EncodeDataH(c, x), now) == Result(room, [Send(room.peers[c], Raw(DataToPeer(x)))])
  {
    HostToPeerHop(c, x);
    hide EncodeDataH, DataToPeer;
  }

  lemma SendsIs(s: Sys, h: Socket, i: nat, x: Payload)
    requires h in s.ends && h in s.wires && i < |s.ends[h].link.vts|
    ensures Next(s, HostSends(h, i, x)) == s.(wires := Written(s.wires, h, Transmit(s.ends[h].link, i, x)))
  {
  }

  /** Closing a member's transport takes the member out of the room and ends its socket, and nobody is sent anything. */
  lemma KickGoesThrough(s: Sys, p: Socket, c: nat, now: int)
    requires Quiet(s) && Member(s, p, c)
    ensures c in HostLinkOf(s).peers
    ensures var h, i := s.room.host, HostLinkOf(s).peers[c];
            && Enabled(s, HostKicks(h, i))
            && var s1 := Next(s, HostKicks(h, i));
               Enabled(s1, HostFrame(now))
               && var s2 := Next(s1, HostFrame(now));
                  && s2.room == s.room.(peers := s.room.peers - {c}) && s2.severed == s.severed + {p}
                  && h in s2.ends && i < |HostLinkOf(s2).vts| && HostLinkOf(s2).vts[i].closed && c !in HostLinkOf(s2).peers
                  && forall q | q in s.wires :: q in s2.wires && s2.wires[q].down == s.wires[q].down
  {
    hide Reached, LinkInv, SentTo, Next, Kick;
    var i := MemberFacts(s, p, c);
    var h := s.room.host;
    ClosingKicks(HostLinkOf(s), i);
    KicksIs(s, h, i);
    var k := Kick(HostLinkOf(s), i);
    Kicks(s.room, h, c, now);
    var t := s.(ends := s.ends[h := s.ends[h].(link := k.link)]);
    HostWrites(t, h, EncodeKick(c), now);
    forall q ensures SentTo([Close(p)], q) == [] { SentOne(Close(p), q); }
    assert Closed([Close(p)]) == {p};
    hide EncodeKick;
  }

  lemma Kicks(room: Room, h: Socket, c: U32, now: int)
    requires c in room.peers
    ensures !TypeIs(EncodeKick(c), PING)
    ensures RelayRoom.FromHost(room, h, EncodeKick(c), now) == Result(room.(peers := room.peers - {c}), [Close(room.peers[c])])
  {
    KickHop(c);
    assert Without(room.peers, c) == room.peers - {c};
  }

  lemma KicksIs(s: Sys, h: Socket, i: nat)
    requires h in s.ends && h in s.wires && i < |s.ends[h].link.vts|
    ensures var k := Kick(s.ends[h].link, i);
            Next(s, HostKicks(h, i)) == s.(wires := Written(s.wires, h, k.frames), ends := s.ends[h := s.ends[h].(link := k.link)])
  {
    hide Kick;
  }

  /** A handoff reserves the room for eight seconds, a ping is answered; neither reaches anybody else. */
  lemma SignalsGoThrough(s: Sys, handoff: bool, now: int)
    requires Quiet(s)
    ensures var h := s.room.host;
            && Enabled(s, HostSignals(h, handoff))
            && var s1 := Next(s, HostSignals(h, handoff));
               Enabled(s1, HostFrame(now))
               && var s2 := Next(s1, HostFrame(now));
                  && s2.room == (if handoff then s.room.(deadline := Some(now + 8_000)) else s.room) && s2.severed == s.severed
                  && forall q | q in s.wires :: q in s2.wires && s2.wires[q].down == s.wires[q].down + if q == h && !handoff then [Pong] else []
  {
    hide Reached, SentTo, Closed;
    var h := s.room.host;
    HostWrites(s, h, if handoff then EncodeHandoff() else EncodePing(), now);
    forall q ensures SentTo([], q) == [] && SentTo([Send(h, Pong)], q) == if q == h then [Pong] else [] {
      SentOne(Send(h, Pong), q);
    }
    ClosesNobody(h);
  }

  lemma ClosesNobody(h: Socket)
    ensures Closed([]) == {} && Closed([Send(h, Pong)]) == {}
  {
  }

  // ----- arrivals and departures -----

  /** A newcomer is told its connId, joins the room under it, and gets a transport of its own at the host's link. */
  lemma JoinGoesThrough(s: Sys, q: Socket)
    requires Quiet(s) && q !in s.wires && s.room.nextConnId < CONN_ID_LIMIT
    ensures var h, c, l := s.room.host, s.room.nextConnId, HostLinkOf(s);
            && Enabled(s, Joins(q))
            && var s1 := Next(s, Joins(q));
               Enabled(s1, HostReads(h))
               && var s2 := Next(s1, HostReads(h));
                  && s2.room == s.room.(peers := s.room.peers[c := q], nextConnId := c + 1) && s2.attached == s.attached[q := c]
                  && q in s2.wires && s2.wires[q].down == [Ready(Some(c))]
                  && h in s2.ends && HostLinkOf(s2).vts == l.vts + [VirtualTransport(c, l.wired, false, 0, [], 0)]
                  && HostLinkOf(s2).peers == l.peers[c := |l.vts|]
  {
    hide Reached, Inv, LinkInv, SentTo, Next, Enabled;
    QuietFacts(s);
    LinkPlaces(HostLinkOf(s));
    var h, c := s.room.host, s.room.nextConnId;
    JoinIs(s, q);
    var s1 := Next(s, Joins(q));
    ReadsOne(s1, h, PeerUp(c));
  }

  lemma JoinIs(s: Sys, q: Socket)
    requires !s.over && s.room.host in s.ends && s.room.host in s.wires && q !in s.wires && s.room.nextConnId < CONN_ID_LIMIT
    ensures Enabled(s, Joins(q))
    ensures var r, h, c := Next(s, Joins(q)), s.room.host, s.room.nextConnId;
            && r.room == s.room.(peers := s.room.peers[c := q], nextConnId := c + 1) && r.attached == s.attached[q := c]
            && q in r.wires && r.wires[q].down == [Ready(Some(c))]
            && h in r.wires && r.wires[h] == s.wires[h].(down := s.wires[h].down + [PeerUp(c)])
            && h in r.ends && r.ends[h].link == s.ends[h].link
  {
    hide SentTo;
    JoinSends(q, s.room.host, s.room.nextConnId);
  }

  /** The host's link reads the one message that is waiting. */
  lemma ReadsOne(s: Sys, h: Socket, msg: Down)
    requires h in s.ends && h in s.wires && s.wires[h].read < |s.wires[h].down| && s.wires[h].down[s.wires[h].read] == msg
    requires forall c | c in s.ends[h].link.peers :: s.ends[h].link.peers[c] < |s.ends[h].link.vts|
    ensures Enabled(s, HostReads(h))
    ensures var r := Next(s, HostReads(h));
            && r.room == s.room && r.attached == s.attached && r.ends == s.ends[h := s.ends[h].(link := OnFrame(s.ends[h].link, msg))]
            && r.wires == s.wires[h := s.wires[h].(read := s.wires[h].read + 1)]
  {
    hide OnFrame;
  }

  lemma JoinSends(q: Socket, h: Socket, c: nat)
    requires q != h
    ensures var out := [Send(q, Ready(Some(c))), Send(h, PeerUp(c))];
            SentTo(out, q) == [Ready(Some(c))] && SentTo(out, h) == [PeerUp(c)]
  {
    var out := [Send(q, Ready(Some(c))), Send(h, PeerUp(c))];
    assert out == [] + [out[0], out[1]];
    SentToPair([], out[0], out[1], q);
    SentToPair([], out[0], out[1], h);
  }

  /** A member's end takes it out of the room, and closes its transport at the host's link. */
  lemma LeaveGoesThrough(s: Sys, p: Socket, c: nat)
    requires Quiet(s) && Member(s, p, c)
    ensures c in HostLinkOf(s).peers
    ensures var h, i := s.room.host, HostLinkOf(s).peers[c];
            && Enabled(s, PeerCloses(p))
            && var s1 := Next(s, PeerCloses(p));
               Enabled(s1, HostReads(h))
               && var s2 := Next(s1, HostReads(h));
                  && s2.room == s.room.(peers := s.room.peers - {c}) && s2.attached == s.attached - {p}
                  && h in s2.ends && i < |HostLinkOf(s2).vts| && HostLinkOf(s2).vts[i].closed && c !in HostLinkOf(s2).peers
  {
    hide Reached;
    var i := MemberFacts(s, p, c);
    var h := s.room.host;
    SentOne(Send(h, PeerDown(c)), h);
    LinkPlaces(HostLinkOf(s));
    ReportsExactlyWhen(HostLinkOf(s), LinkEvent.Frame(PeerDown(c)), i);
    assert Without(s.room.peers, c) == s.room.peers - {c};
    hide LinkInv, SentTo;
    var s1 := Next(s, PeerCloses(p));
    assert s1.wires[h].down[s1.wires[h].read] == PeerDown(c);
  }

  /** Registering hands over what was pending; dropping the socket, or closing the link, closes it, and the former its transports. */
  lemma LinkStepsAreTaken(s: Sys, h: Socket)
    requires h in s.ends && LinkInv(s.ends[h].link)
    ensures var l := s.ends[h].link;
            && Next(s, HostListens(h)) == WithLink(s, h, LinkStep(l, Listen))
            && Next(s, HostDrops(h, true)) == WithLink(s, h, LinkStep(l, CloseLink))
            && Next(s, HostDrops(h, false)) == WithLink(s, h, LinkStep(l, LinkEvent.SocketClosed))
  {
  }
}
