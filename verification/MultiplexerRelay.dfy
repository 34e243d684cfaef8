/** The step in which the relay takes a frame from the current host. */
module RelaySteps {
  import opened Bytes
  import opened RelayWire
  import opened ClientWire
  import opened RelayRoom
  import opened RelayLink
  import opened Streams
  import opened Multiplexer
  import opened MultiplexerProof
  import opened HostSteps

  /** The relay's reaction to one frame of its host. */
  function Reaction(room: Room, buf: Buffer, now: int): Result {
    if TypeIs(buf, PING) then Result(room, [Send(room.host, Pong)]) else FromHost(room, room.host, buf, now)
  }

  /** What that puts on socket q. */
  function Spread(room: Room, buf: Buffer, q: Socket): seq<Down> {
    var d := DecodeDataFromHost(buf);
    if TypeIs(buf, PING) then (if q == room.host then [Pong] else [])
    else if d.Some? && d.value.connId in room.peers && room.peers[d.value.connId] == q then [Raw(DataToPeer(d.value.payload))]
    else []
  }

  function KickedOut(room: Room, buf: Buffer): set<Socket> {
    if DecodeKick(buf).Some? && DecodeKick(buf).value in room.peers then {room.peers[DecodeKick(buf).value]} else {}
  }

  function AfterKick(room: Room, buf: Buffer): map<nat, Socket> {
    if DecodeKick(buf).Some? then Without(room.peers, DecodeKick(buf).value) else room.peers
  }

  lemma ReactionSpreads(room: Room, buf: Buffer, now: int, q: Socket)
    ensures SentTo(Reaction(room, buf, now).out, q) == Spread(room, buf, q)
  {
    var out := Reaction(room, buf, now).out;
    if out != [] { SentOne(out[0], q); }
  }

  lemma ReactionRoom(room: Room, buf: Buffer, now: int)
    ensures var r := Reaction(room, buf, now);
            && r.room == room.(peers := AfterKick(room, buf), deadline := r.room.deadline)
            && (room.deadline.Some? ==> r.room.deadline.Some?)
            && Closed(r.out) == KickedOut(room, buf)
  {
    var r := Reaction(room, buf, now);
    if DecodeKick(buf).Some? {
      var c := DecodeKick(buf).value;
      if c in room.peers {
        assert r.out == [Close(room.peers[c])];
        assert Close(room.peers[c]) in r.out;
      } else {
        assert Without(room.peers, c) == room.peers;
      }
    }
  }

  lemma HostFrameReacts(s: Sys, now: int)
    requires Enabled(s, HostFrame(now))
    ensures var h := s.room.host;
            var w := s.wires[h];
            var r := Reaction(s.room, w.up[w.taken], now);
            HostFrame1(s, now) == s.(room := r.room, severed := s.severed + Closed(r.out),
                                     wires := Applied(s.wires[h := w.(taken := w.taken + 1)], r.out),
                                     ends := s.ends[h := s.ends[h].(flows := Counted(s.ends[h].flows, s.room.peers, w.taken + 1))])
  {
    hide Closed, Applied, Counted;
  }

  lemma HostFrameShape(s: Sys, now: int)
    requires Enabled(s, HostFrame(now))
    ensures var s', h := HostFrame1(s, now), s.room.host;
            var w := s.wires[h];
            var buf := w.up[w.taken];
            && s' == s.(room := s.room.(peers := AfterKick(s.room, buf), deadline := s'.room.deadline),
                        severed := s.severed + KickedOut(s.room, buf), wires := s'.wires, ends := s'.ends)
            && (s.room.deadline.Some? ==> s'.room.deadline.Some?)
            && s'.ends == s.ends[h := s.ends[h].(flows := Counted(s.ends[h].flows, s.room.peers, w.taken + 1))]
            && s'.wires.Keys == s.wires.Keys
            && s'.wires[h] == w.(taken := w.taken + 1, down := w.down + Spread(s.room, buf, h))
            && (forall q | q in s.wires && q != h :: s'.wires[q] == s.wires[q].(down := s.wires[q].down + Spread(s.room, buf, q)))
  {
    hide Reaction, SentTo, HostFrame1, KickedOut, AfterKick, Spread, Counted, Closed;
    var s', h := HostFrame1(s, now), s.room.host;
    var w := s.wires[h];
    var buf := w.up[w.taken];
    HostFrameReacts(s, now);
    ReactionRoom(s.room, buf, now);
    ReactionSpreads(s.room, buf, now, h);
    forall q | q in s.wires && q != h ensures s'.wires[q] == s.wires[q].(down := s.wires[q].down + Spread(s.room, buf, q)) {
      ReactionSpreads(s.room, buf, now, q);
    }
  }

  lemma HostFrameGrows(s: Sys, now: int)
    requires Enabled(s, HostFrame(now))
    requires forall q | q in s.wires :: s.wires[q].taken <= |s.wires[q].up|
    ensures var s', w := HostFrame1(s, now), s.wires[s.room.host];
            && AllGrown(s.wires, s'.wires)
            && forall q | q in s.wires :: q in s'.wires && Extra(s.wires[q], s'.wires[q]) == Spread(s.room, w.up[w.taken], q)
  {
    HostFrameShape(s, now);
    hide HostFrame1, Spread;
  }

  lemma HostFrameHost(s: Sys, now: int, g: Socket)
    requires Enabled(s, HostFrame(now)) && g in s.ends && g in s.wires && g !in s.room.peers.Values
    requires HostOk(s.ends[g], s.wires[g], s.room.nextConnId)
    ensures var s' := HostFrame1(s, now); g in s'.wires && g in s'.ends && HostOk(s'.ends[g], s'.wires[g], s.room.nextConnId)
  {
    hide HostOk, HostFrame1;
    HostFrameShape(s, now);
    var s', e, w, h := HostFrame1(s, now), s.ends[g], s.wires[g], s.room.host;
    var buf := s.wires[h].up[s.wires[h].taken];
    HostIsDisciplined(e, w, s.room.nextConnId);
    assert s'.ends[g].flows.Keys == e.flows.Keys && s'.ends[g] == e.(flows := s'.ends[g].flows);
    var m := Spread(s.room, buf, g);
    assert m == [] || m == [Pong];
    if m == [Pong] {
      DisciplinedAppend(w.down, Pong);
      HostDownGrows(e, s'.ends[g].flows, w, s'.wires[g], Pong, s.room.nextConnId);
    } else {
      assert w.down + [] == w.down;
      HostUnchanged(e, s'.ends[g].flows, w, s'.wires[g], s.room.nextConnId, s.room.nextConnId);
    }
  }

  /** A member hears exactly the payload the frame addresses to it. */
  lemma SpreadIsAddressed(room: Room, buf: Buffer, c: nat)
    requires c in room.peers && OneIdEach(room.peers) && room.peers[c] != room.host
    ensures ToPeer(Spread(room, buf, room.peers[c])) == HostSays(buf, c)
  {
    var m := Spread(room, buf, room.peers[c]);
    if m != [] {
      var p := DecodeDataFromHost(buf).value.payload;
      HostToPeerHop(0, p);
      PeerHistory([], Raw(DataToPeer(p)));
      assert [] + m == m && m == [Raw(DataToPeer(p))];
    }
  }

  lemma SpreadIsNoHostData(room: Room, buf: Buffer, q: Socket, d: nat)
    requires q !in room.peers.Values
    ensures ToHost(Spread(room, buf, q), d) == []
    ensures q != room.host ==> Spread(room, buf, q) == []
  {
    UpIsNoData(0, d);
    NothingIsNothing(d);
  }

  lemma OneMoreToPeer(d: seq<Down>, from: nat, extra: seq<Down>)
    requires from <= |d|
    ensures ToPeer((d + extra)[from..|d + extra|]) == ToPeer(d[from..|d|]) + ToPeer(extra)
  {
    assert (d + extra)[from..|d + extra|] == d[from..|d|] + extra;
    ToPeerConcat(d[from..|d|], extra);
  }

  lemma OneMoreFromHost(u: seq<Buffer>, t: nat, c: nat)
    requires t < |u|
    ensures HostSent(u[..t + 1], c) == HostSent(u[..t], c) + HostSays(u[t], c)
  {
    assert u[..t + 1] == u[..t] + [u[t]];
    HostWrites(u[..t], u[t], c);
  }

  /** The heart of the downward pipe: the frame taken is the frame the addressed member is sent. */
  lemma SpreadDown(f: Flow, c: nat, hw: Wire, pw: Wire, room: Room)
    requires f.dbase <= |pw.down| && f.uend == hw.taken < |hw.up|
    requires ToPeer(pw.down[f.dbase..|pw.down|]) == HostSent(hw.up[..f.uend], c)
    requires c in room.peers && OneIdEach(room.peers) && room.peers[c] != room.host
    ensures var d := pw.down + Spread(room, hw.up[hw.taken], room.peers[c]);
            ToPeer(d[f.dbase..|d|]) == HostSent(hw.up[..hw.taken + 1], c)
  {
    hide Spread, ToPeer, HostSent, HostSays, OneIdEach;
    SpreadIsAddressed(room, hw.up[hw.taken], c);
    OneMoreFromHost(hw.up, hw.taken, c);
    OneMoreToPeer(pw.down, f.dbase, Spread(room, hw.up[hw.taken], room.peers[c]));
  }

  lemma SpreadUp(hw: Wire, room: Room, buf: Buffer, c: nat)
    requires room.host !in room.peers.Values
    ensures ToHost(hw.down + Spread(room, buf, room.host), c) == ToHost(hw.down, c)
  {
    hide Spread, ToHost;
    SpreadIsNoHostData(room, buf, room.host, c);
    ToHostConcat(hw.down, Spread(room, buf, room.host), c);
  }

  lemma CountedFlowOk(f: Flow, c: nat, hw: Wire, hw': Wire, pw: Wire, pw': Wire, room: Room)
    requires FlowOk(f, c, hw, pw) && f.dend.None? && f.uend == hw.taken < |hw.up|
    requires c in room.peers && OneIdEach(room.peers) && room.peers[c] != room.host && room.host !in room.peers.Values
    requires hw' == hw.(taken := hw.taken + 1, down := hw.down + Spread(room, hw.up[hw.taken], room.host))
    requires pw' == pw.(down := pw.down + Spread(room, hw.up[hw.taken], room.peers[c]))
    ensures FlowOk(f.(uend := hw.taken + 1), c, hw', pw')
  {
    hide Spread, ToPeer, ToHost, HostSent, PeerSent, HostSays, OneIdEach;
    SpreadDown(f, c, hw, pw, room);
    SpreadUp(hw, room, hw.up[hw.taken], c);
  }

  lemma HostFrameMemberFlow(s: Sys, now: int, c: nat)
    requires Enabled(s, HostFrame(now)) && c in s.room.peers && OneIdEach(s.room.peers) && s.room.host !in s.room.peers.Values
    requires c in s.ends[s.room.host].flows && s.room.peers[c] in s.wires && s.room.peers[c] !in s.ends
    requires OneFlowOk(s.ends[s.room.host].flows[c], c, s.room.host, s.wires, s.ends.Keys)
    requires Counting(s.ends[s.room.host].flows[c], s.room.peers[c], s.wires[s.room.peers[c]], s.wires[s.room.host], s.room.deadline.Some?)
    ensures var s', h := HostFrame1(s, now), s.room.host;
            h in s'.wires && h in s'.ends && c in s'.ends[h].flows && OneFlowOk(s'.ends[h].flows[c], c, h, s'.wires, s'.ends.Keys)
  {
    hide FlowOk, HostFrame1, Spread;
    HostFrameShape(s, now);
    var h, p := s.room.host, s.room.peers[c];
    assert p in s.room.peers.Values;
    assert HostFrame1(s, now).ends.Keys == s.ends.Keys;
    CountedFlowOk(s.ends[h].flows[c], c, s.wires[h], HostFrame1(s, now).wires[h], s.wires[p], HostFrame1(s, now).wires[p], s.room);
  }

  lemma HostFrameOtherFlow(s: Sys, now: int, g: Socket, d: nat)
    requires Enabled(s, HostFrame(now)) && g in s.ends && g in s.wires && g !in s.room.peers.Values
    requires forall q | q in s.wires :: s.wires[q].taken <= |s.wires[q].up|
    requires d in s.ends[g].flows && OneFlowOk(s.ends[g].flows[d], d, g, s.wires, s.ends.Keys)
    requires s.ends[g].flows[d].dend.Some? || s.ends[g].flows[d].owner !in s.room.peers.Values
    ensures g in HostFrame1(s, now).wires && OneFlowOk(s.ends[g].flows[d], d, g, HostFrame1(s, now).wires, s.ends.Keys)
  {
    hide FlowOk, HostFrame1, Spread, ToHost, ToPeer;
    HostFrameGrows(s, now);
    var f, buf := s.ends[g].flows[d], s.wires[s.room.host].up[s.wires[s.room.host].taken];
    SpreadIsNoHostData(s.room, buf, g, d);
    NothingIsNothing(d);
    if f.dend.None? { SpreadIsNoHostData(s.room, buf, f.owner, d); }
    FlowCarries(f, d, g, s.wires, HostFrame1(s, now).wires, s.ends.Keys, s.ends.Keys);
  }

  lemma HostFrameFlows(s: Sys, now: int, g: Socket)
    requires Enabled(s, HostFrame(now)) && g in s.ends && g !in s.room.peers.Values
    requires forall q | q in s.wires :: s.wires[q].taken <= |s.wires[q].up|
    requires FlowsOk(s.ends[g].flows, g, s.wires, s.ends.Keys) && OpenFlows(s.ends[g].flows, g, s.room)
    requires OneIdEach(s.room.peers) && s.room.host !in s.room.peers.Values
    requires forall c | c in s.room.peers :: s.room.peers[c] in s.wires && s.room.peers[c] !in s.ends
    requires TenureOk(s.room, s.ends[s.room.host].flows, s.wires[s.room.host], s.wires)
    ensures var s' := HostFrame1(s, now); g in s'.ends && FlowsOk(s'.ends[g].flows, g, s'.wires, s'.ends.Keys)
  {
    hide OneFlowOk, HostFrame1, Counting, Settle;
    HostFrameShape(s, now);
    var s', h := HostFrame1(s, now), s.room.host;
    assert s'.ends.Keys == s.ends.Keys;
    forall d | d in s'.ends[g].flows ensures OneFlowOk(s'.ends[g].flows[d], d, g, s'.wires, s'.ends.Keys) {
      if g == h && d in s.room.peers {
        HostFrameMemberFlow(s, now, d);
      } else {
        HostFrameOtherFlow(s, now, g, d);
      }
    }
  }

  lemma HostFrameHosts(s: Sys, now: int)
    requires Enabled(s, HostFrame(now)) && HostsOk(s.ends, s.wires, s.room.nextConnId) && OpenOk(s.ends, s.room)
    requires forall q | q in s.wires :: s.wires[q].taken <= |s.wires[q].up|
    requires OneIdEach(s.room.peers) && forall c | c in s.room.peers :: s.room.peers[c] in s.wires && s.room.peers[c] !in s.ends
    requires TenureOk(s.room, s.ends[s.room.host].flows, s.wires[s.room.host], s.wires)
    ensures var s' := HostFrame1(s, now); HostsOk(s'.ends, s'.wires, s.room.nextConnId)
  {
    hide HostOk, FlowsOk, OpenFlows, TenureOk, HostFrame1;
    HostFrameShape(s, now);
    var s' := HostFrame1(s, now);
    assert s'.ends.Keys == s.ends.Keys;
    forall g | g in s'.ends
      ensures g in s'.wires && HostOk(s'.ends[g], s'.wires[g], s.room.nextConnId) && FlowsOk(s'.ends[g].flows, g, s'.wires, s'.ends.Keys)
    {
      assert g !in s.room.peers.Values && s.room.host !in s.room.peers.Values;
      HostFrameHost(s, now, g);
      HostFrameFlows(s, now, g);
    }
  }

  lemma HostFrameSockets(s: Sys, now: int)
    requires Enabled(s, HostFrame(now)) && SocketsOk(s.room, s.over, s.attached, s.severed, s.wires, s.ends.Keys)
    ensures var s' := HostFrame1(s, now); SocketsOk(s'.room, s'.over, s'.attached, s'.severed, s'.wires, s'.ends.Keys)
  {
    hide HostFrame1, Spread;
    HostFrameShape(s, now);
    Members(s);
    var s' := HostFrame1(s, now);
    assert s'.ends.Keys == s.ends.Keys;
    forall q | q in s'.attached ensures AttachedOk(q, s'.attached[q], s'.room, s'.severed, s'.wires, s'.ends.Keys) {
      assert AttachedOk(q, s.attached[q], s.room, s.severed, s.wires, s.ends.Keys);
    }
    forall d | d in s'.room.peers ensures MemberOk(d, s'.room.peers[d], s'.attached, s'.severed) {
      assert MemberOk(d, s.room.peers[d], s.attached, s.severed);
    }
  }

  lemma OpenShrinks(ends: map<Socket, HostEnd>, ends': map<Socket, HostEnd>, room: Room, room': Room)
    requires OpenOk(ends, room) && OneIdEach(room.peers) && ends'.Keys == ends.Keys && room'.host == room.host
    requires forall c | c in room'.peers :: c in room.peers && room'.peers[c] == room.peers[c]
    requires forall g | g in ends :: ends'[g].flows.Keys == ends[g].flows.Keys
              && forall d | d in ends[g].flows :: ends'[g].flows[d].dend == ends[g].flows[d].dend && ends'[g].flows[d].owner == ends[g].flows[d].owner
    ensures OpenOk(ends', room')
  {
    forall g | g in ends' ensures OpenFlows(ends'[g].flows, g, room') {
      assert OpenFlows(ends[g].flows, g, room);
    }
  }

  lemma HostFrameOpen(s: Sys, now: int)
    requires Enabled(s, HostFrame(now)) && OpenOk(s.ends, s.room) && OneIdEach(s.room.peers)
    ensures var s' := HostFrame1(s, now); OpenOk(s'.ends, s'.room)
  {
    hide HostFrame1, OpenOk, Spread;
    HostFrameShape(s, now);
    var s' := HostFrame1(s, now);
    OpenShrinks(s.ends, s'.ends, s.room, s'.room);
  }

  lemma KickedHead(u: seq<Buffer>, t: nat)
    requires t < |u|
    ensures Kicked(u[t..]) == (set c | c in KickOf(u[t])) + Kicked(u[t + 1..])
  {
    assert u[t..] == [u[t]] + u[t + 1..];
    HostSentConcat([u[t]], u[t + 1..], 0);
    HostWrites([], u[t], 0);
    assert [] + [u[t]] == [u[t]];
    assert KickIds(u[t..]) == KickOf(u[t]) + KickIds(u[t + 1..]);
  }

  /** Taking a kick removes its connId from the room and from the kicks in flight at once. */
  lemma KickTaken(link: HostLink, w: Wire, room: Room)
    requires ViewOk(link, w, room) && w.taken < |w.up| && room.host !in room.peers.Values
    ensures var buf := w.up[w.taken];
            ViewOk(link, w.(taken := w.taken + 1, down := w.down + Spread(room, buf, room.host)), room.(peers := AfterKick(room, buf)))
            && Settle({}, w.down + Spread(room, buf, room.host)) == Settle({}, w.down)
  {
    var buf := w.up[w.taken];
    QuietView(link, w, room, Spread(room, buf, room.host));
    KickedHead(w.up, w.taken);
    assert AfterKick(room, buf).Keys == room.peers.Keys - (set c | c in KickOf(buf));
    hide Settle, Spread, Kicked, KickOf, AfterKick;
  }

  lemma HostFrameTenure(s: Sys, now: int)
    requires Enabled(s, HostFrame(now)) && s.room.host !in s.room.peers.Values
    requires TenureOk(s.room, s.ends[s.room.host].flows, s.wires[s.room.host], s.wires)
    requires ViewOk(s.ends[s.room.host].link, s.wires[s.room.host], s.room)
    ensures var s', h := HostFrame1(s, now), s.room.host;
            h in s'.ends && h in s'.wires && s'.room.host == h
            && TenureOk(s'.room, s'.ends[h].flows, s'.wires[h], s'.wires) && ViewOk(s'.ends[h].link, s'.wires[h], s'.room)
  {
    hide HostFrame1, ViewOk, Settle, Spread;
    HostFrameShape(s, now);
    KickTaken(s.ends[s.room.host].link, s.wires[s.room.host], s.room);
    var s', h := HostFrame1(s, now), s.room.host;
    SameView(s'.ends[h].link, s'.wires[h], s.room.(peers := s'.room.peers), s'.room);
    forall d | d in s'.room.peers
      ensures d in s'.ends[h].flows && s'.room.peers[d] in s'.wires
              && Counting(s'.ends[h].flows[d], s'.room.peers[d], s'.wires[s'.room.peers[d]], s'.wires[h], s'.room.deadline.Some?)
    {
      assert s.room.peers[d] in s.room.peers.Values;
      assert Counting(s.ends[h].flows[d], s.room.peers[d], s.wires[s.room.peers[d]], s.wires[h], s.room.deadline.Some?);
    }
  }

  lemma SameView(link: HostLink, w: Wire, room: Room, room': Room)
    requires ViewOk(link, w, room) && room'.peers == room.peers
    ensures ViewOk(link, w, room')
  {
  }

  lemma HostFrameKeeps(s: Sys, now: int)
    requires Inv(s) && Enabled(s, HostFrame(now))
    ensures Inv(HostFrame1(s, now))
  {
    hide HostOk, FlowsOk, HostsOk, OpenOk, ViewOk, TenureOk, HostFrame1;
    Basics(s);
    Members(s);
    hide SocketsOk;
    HostFrameShape(s, now);
    HostFrameHosts(s, now);
    HostFrameSockets(s, now);
    HostFrameOpen(s, now);
    HostFrameTenure(s, now);
  }
}
