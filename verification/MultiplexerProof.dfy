/** Every step of the system keeps its invariant. */
module MultiplexerProof {
  import opened Bytes
  import opened RelayWire
  import opened ClientWire
  import opened RelayRoom
  import opened RelayLink
  import opened Streams
  import opened Multiplexer

  // ----- small outputs -----

  lemma SentOne(e: Effect, s: Socket)
    ensures SentTo([e], s) == Reaching(e, s)
  {
    assert [e][..0] == [];
  }

  lemma SentTwo(e: Effect, f: Effect, s: Socket)
    ensures SentTo([e, f], s) == Reaching(e, s) + Reaching(f, s)
  {
    SentToPair([], e, f, s);
    assert [] + [e, f] == [e, f];
  }

  // ----- what survives when histories only grow -----

  ghost predicate Grown(w: Wire, w': Wire) {
    w.up <= w'.up && w.taken <= w'.taken <= |w'.up| && w.down <= w'.down
  }

  lemma FlowStable(f: Flow, c: nat, hw: Wire, hw': Wire, pw: Wire, pw': Wire)
    requires FlowOk(f, c, hw, pw) && Grown(hw, hw') && Grown(pw, pw')
    requires ToHost(hw'.down[|hw.down|..], c) == []
    requires f.dend.Some? || ToPeer(pw'.down[|pw.down|..]) == []
    ensures FlowOk(f, c, hw', pw')
  {
    assert hw'.down == hw.down + hw'.down[|hw.down|..];
    ToHostConcat(hw.down, hw'.down[|hw.down|..], c);
    assert pw'.up[f.base..f.end] == pw.up[f.base..f.end];
    assert hw'.up[..f.uend] == hw.up[..f.uend];
    if f.dend.Some? {
      assert pw'.down[f.dbase..FlowEnd(f, pw')] == pw.down[f.dbase..FlowEnd(f, pw)];
    } else {
      assert pw'.down == pw.down + pw'.down[|pw.down|..];
      assert pw'.down[f.dbase..FlowEnd(f, pw')] == pw.down[f.dbase..FlowEnd(f, pw)] + pw'.down[|pw.down|..];
      assert pw.down[f.dbase..FlowEnd(f, pw)] == pw.down[f.dbase..];
      ToPeerConcat(pw.down[f.dbase..], pw'.down[|pw.down|..]);
    }
  }

  /** The relay writes to the host and takes from it; the host has read nothing more. */
  lemma HostDownGrows(e: HostEnd, flows': map<nat, Flow>, w: Wire, w': Wire, m: Down, next: nat)
    requires HostOk(e, w, next) && w'.down == w.down + [m] && w'.read == w.read && w'.up == w.up && w'.taken <= |w.up|
    requires Disciplined(w'.down) && !m.PeerUp? && flows'.Keys == e.flows.Keys
    ensures HostOk(e.(flows := flows'), w', next)
  {
    HostHistory(w.down, m, 0);
    assert w'.down[..w.read] == w.down[..w.read];
    assert forall c :: c in flows' <==> c in e.flows.Keys;
  }

  lemma HostUnchanged(e: HostEnd, flows': map<nat, Flow>, w: Wire, w': Wire, next: nat, next': nat)
    requires HostOk(e, w, next) && w'.down == w.down && w'.read == w.read && w'.up == w.up && (w' == w || w'.taken <= |w.up|)
    requires flows'.Keys == e.flows.Keys && next <= next' <= CONN_ID_LIMIT
    ensures HostOk(e.(flows := flows'), w', next')
  {
    assert forall c :: c in flows' <==> c in e.flows.Keys;
  }

  /** The host writes frames that concern only connIds it has read about. */
  lemma HostUpGrows(e: HostEnd, w: Wire, frame: Buffer, next: nat)
    requires HostOk(e, w, next)
    requires forall c | c in KickOf(frame) || HostSays(frame, c) != [] :: c in UpIds(w.down[..w.read])
    ensures HostOk(e, w.(up := w.up + [frame]), next)
  {
    forall c | c in KickIds(w.up + [frame]) || HostSent(w.up + [frame], c) != [] ensures c in UpIds(w.down[..w.read]) {
      HostWrites(w.up, frame, c);
    }
  }

  /** What the relay added to a socket's inbound history. */
  function Extra(w: Wire, w': Wire): seq<Down>
    requires |w.down| <= |w'.down|
  {
    w'.down[|w.down|..]
  }

  ghost predicate AllGrown(wires: map<Socket, Wire>, wires': map<Socket, Wire>) {
    forall q | q in wires :: q in wires' && Grown(wires[q], wires'[q])
  }

  /** A flow of host h that no data of this step concerns carries over. */
  lemma FlowCarries(f: Flow, c: nat, h: Socket, wires: map<Socket, Wire>, wires': map<Socket, Wire>, hosts: set<Socket>, hosts': set<Socket>)
    requires h in wires && OneFlowOk(f, c, h, wires, hosts) && AllGrown(wires, wires')
    requires hosts' - hosts !! wires.Keys
    requires ToHost(Extra(wires[h], wires'[h]), c) == []
    requires f.dend.Some? || ToPeer(Extra(wires[f.owner], wires'[f.owner])) == []
    ensures OneFlowOk(f, c, h, wires', hosts')
  {
    assert Grown(wires[h], wires'[h]) && Grown(wires[f.owner], wires'[f.owner]);
    FlowStable(f, c, wires[h], wires'[h], wires[f.owner], wires'[f.owner]);
  }

  // ----- a peer writes -----

  lemma PeerSendWires(s: Sys, p: Socket, buf: Buffer)
    requires Enabled(s, PeerSends(p, buf))
    requires forall q | q in s.wires :: s.wires[q].taken <= |s.wires[q].up|
    ensures var s' := PeerSend1(s, p, buf);
            AllGrown(s.wires, s'.wires) && forall q | q in s.wires :: Extra(s.wires[q], s'.wires[q]) == []
  {
  }

  lemma PeerSendHosts(s: Sys, p: Socket, buf: Buffer)
    requires Enabled(s, PeerSends(p, buf)) && p !in s.ends
    requires forall q | q in s.wires :: s.wires[q].taken <= |s.wires[q].up|
    requires HostsOk(s.ends, s.wires, s.room.nextConnId)
    ensures HostsOk(s.ends, PeerSend1(s, p, buf).wires, s.room.nextConnId)
  {
    var s' := PeerSend1(s, p, buf);
    PeerSendWires(s, p, buf);
    hide HostOk, FlowOk;
    forall h | h in s.ends
      ensures h in s'.wires && HostOk(s.ends[h], s'.wires[h], s.room.nextConnId) && FlowsOk(s.ends[h].flows, h, s'.wires, s.ends.Keys)
    {
      forall c | c in s.ends[h].flows ensures OneFlowOk(s.ends[h].flows[c], c, h, s'.wires, s.ends.Keys) {
        FlowCarries(s.ends[h].flows[c], c, h, s.wires, s'.wires, s.ends.Keys, s.ends.Keys);
      }
    }
  }

  lemma PeerSendKeeps(s: Sys, p: Socket, buf: Buffer)
    requires Inv(s) && Enabled(s, PeerSends(p, buf))
    ensures Inv(PeerSend1(s, p, buf))
  {
    hide HostOk, FlowOk, FlowsOk;
    PeerSendHosts(s, p, buf);
  }

  /** Kicks still in flight are about connIds the host has read of. */
  lemma KicksAreAnnounced(e: HostEnd, w: Wire, next: nat)
    requires HostOk(e, w, next)
    ensures forall c | c in Kicked(w.up[w.taken..]) :: c in UpIds(w.down[..w.read]) && c in UpIds(w.down) && c < next
  {
    hide KickIds, UpIds, HostSent, ToHost, Disciplined, LinkInv, EarOk, ConnIds;
    assert w.up == w.up[..w.taken] + w.up[w.taken..];
    HostSentConcat(w.up[..w.taken], w.up[w.taken..], 0);
    assert w.down == w.down[..w.read] + w.down[w.read..];
    ToHostConcat(w.down[..w.read], w.down[w.read..], 0);
    forall c | c in Kicked(w.up[w.taken..]) ensures c in UpIds(w.down[..w.read]) && c in UpIds(w.down) && c < next {
      assert c in KickIds(w.up[w.taken..]);
      assert c in KickIds(w.up);
    }
  }

  // ----- a peer joins -----

  lemma JoinWires(s: Sys, p: Socket)
    requires Enabled(s, Joins(p))
    ensures var s', h, c := Join1(s, p), s.room.host, s.room.nextConnId;
            && s'.wires.Keys == s.wires.Keys + {p}
            && s'.wires[h] == s.wires[h].(down := s.wires[h].down + [PeerUp(c)])
            && s'.wires[p] == Wire([], 0, [Ready(Some(c))], 0)
            && (forall q | q in s.wires && q != h :: s'.wires[q] == s.wires[q])
  {
    var s', h, c := Join1(s, p), s.room.host, s.room.nextConnId;
    forall q ensures SentTo([Send(p, Ready(Some(c))), Send(h, PeerUp(c))], q)
                  == if q == p then [Ready(Some(c))] else if q == h then [PeerUp(c)] else [] {
      SentTwo(Send(p, Ready(Some(c))), Send(h, PeerUp(c)), q);
    }
    forall q | q in s.wires && q != h ensures s'.wires[q] == s.wires[q] {
      assert s.wires[q].down + [] == s.wires[q].down;
    }
    assert [] + [Ready(Some(c))] == [Ready(Some(c))];
  }

  lemma JoinGrows(s: Sys, p: Socket)
    requires Enabled(s, Joins(p))
    requires forall q | q in s.wires :: s.wires[q].taken <= |s.wires[q].up|
    ensures AllGrown(s.wires, Join1(s, p).wires)
    ensures forall q | q in s.wires :: q in Join1(s, p).wires
              && Extra(s.wires[q], Join1(s, p).wires[q]) == if q == s.room.host then [PeerUp(s.room.nextConnId)] else []
  {
    JoinWires(s, p);
  }

  lemma JoinHostOk(e: HostEnd, w: Wire, c: nat, f: Flow)
    requires HostOk(e, w, c) && c < CONN_ID_LIMIT
    ensures c !in UpIds(w.down)
    ensures HostOk(e.(flows := e.flows[c := f]), w.(down := w.down + [PeerUp(c)]), c + 1)
  {
    DisciplinedAppend(w.down, PeerUp(c));
    HostHistory(w.down, PeerUp(c), 0);
    assert (w.down + [PeerUp(c)])[..w.read] == w.down[..w.read];
  }

  /** Nothing was sent either way under a connId before it existed. */
  lemma NewFlowOk(e: HostEnd, w: Wire, c: nat, p: Socket)
    requires HostOk(e, w, c)
    ensures FlowOk(Flow(p, 0, 0, 0, None, w.taken), c, w.(down := w.down + [PeerUp(c)]), Wire([], 0, [Ready(Some(c))], 0))
  {
    var u, t, r := w.up, w.taken, w.read;
    HostHistory(w.down, PeerUp(c), c);
    SilentUntilAnnounced(w.down, c);
    assert u == u[..t] + u[t..];
    HostSentConcat(u[..t], u[t..], c);
    assert w.down == w.down[..r] + w.down[r..];
    ToHostConcat(w.down[..r], w.down[r..], c);
    assert [Ready(Some(c))][0..1] == [] + [Ready(Some(c))];
    PeerHistory([], Ready(Some(c)));
  }

  lemma UpIsNoData(c: nat, d: nat)
    ensures ToHost([PeerUp(c)], d) == [] && ToHost([PeerDown(c)], d) == [] && ToHost([Pong], d) == []
  {
    HostHistory([], PeerUp(c), d);
    HostHistory([], PeerDown(c), d);
    HostHistory([], Pong, d);
    assert [] + [PeerUp(c)] == [PeerUp(c)] && [] + [PeerDown(c)] == [PeerDown(c)] && [] + [Pong] == [Pong];
  }

  lemma JoinNewFlow(s: Sys, p: Socket)
    requires Enabled(s, Joins(p)) && p !in s.ends
    requires HostOk(s.ends[s.room.host], s.wires[s.room.host], s.room.nextConnId)
    ensures var s', h, c := Join1(s, p), s.room.host, s.room.nextConnId;
            c in s'.ends[h].flows && h in s'.wires && OneFlowOk(s'.ends[h].flows[c], c, h, s'.wires, s'.ends.Keys)
  {
    hide HostOk, FlowOk, SentTo;
    JoinWires(s, p);
    NewFlowOk(s.ends[s.room.host], s.wires[s.room.host], s.room.nextConnId, p);
  }

  lemma JoinFlows(s: Sys, p: Socket, g: Socket)
    requires Enabled(s, Joins(p)) && g in s.ends && p !in s.ends
    requires forall q | q in s.wires :: s.wires[q].taken <= |s.wires[q].up|
    requires HostOk(s.ends[s.room.host], s.wires[s.room.host], s.room.nextConnId)
    requires FlowsOk(s.ends[g].flows, g, s.wires, s.ends.Keys)
    ensures var s' := Join1(s, p); FlowsOk(s'.ends[g].flows, g, s'.wires, s'.ends.Keys)
  {
    hide HostOk, FlowOk, SentTo, Applied;
    var s', h, c := Join1(s, p), s.room.host, s.room.nextConnId;
    JoinGrows(s, p);
    JoinNewFlow(s, p);
    assert s'.ends.Keys == s.ends.Keys;
    forall d | d in s'.ends[g].flows ensures OneFlowOk(s'.ends[g].flows[d], d, g, s'.wires, s'.ends.Keys) {
      if g != h || d != c {
        assert s'.ends[g].flows[d] == s.ends[g].flows[d];
        UpIsNoData(c, d);
        FlowCarries(s.ends[g].flows[d], d, g, s.wires, s'.wires, s.ends.Keys, s'.ends.Keys);
      }
    }
  }

  lemma JoinOneHost(s: Sys, p: Socket, g: Socket)
    requires Enabled(s, Joins(p)) && g in s.ends && g in s.wires
    requires HostOk(s.ends[g], s.wires[g], s.room.nextConnId)
    ensures var s' := Join1(s, p); g in s'.wires && HostOk(s'.ends[g], s'.wires[g], s'.room.nextConnId)
  {
    hide HostOk, SentTo;
    var h, c := s.room.host, s.room.nextConnId;
    JoinWires(s, p);
    if g == h {
      JoinHostOk(s.ends[h], s.wires[h], c, Flow(p, 0, 0, 0, None, s.wires[h].taken));
    } else {
      HostUnchanged(s.ends[g], s.ends[g].flows, s.wires[g], s.wires[g], c, c + 1);
    }
  }

  lemma JoinHosts(s: Sys, p: Socket)
    requires Enabled(s, Joins(p)) && HostsOk(s.ends, s.wires, s.room.nextConnId) && p !in s.ends
    requires forall q | q in s.wires :: s.wires[q].taken <= |s.wires[q].up|
    ensures HostsOk(Join1(s, p).ends, Join1(s, p).wires, Join1(s, p).room.nextConnId)
  {
    var s' := Join1(s, p);
    hide HostOk, FlowsOk, Applied;
    assert s'.ends.Keys == s.ends.Keys;
    forall g | g in s'.ends
      ensures g in s'.wires && HostOk(s'.ends[g], s'.wires[g], s'.room.nextConnId) && FlowsOk(s'.ends[g].flows, g, s'.wires, s'.ends.Keys)
    {
      JoinOneHost(s, p, g);
      JoinFlows(s, p, g);
    }
  }

  lemma JoinView(link: HostLink, w: Wire, room: Room, c: nat, p: Socket)
    requires ViewOk(link, w, room) && room.nextConnId == c && c !in Kicked(w.up[w.taken..])
    ensures ViewOk(link, w.(down := w.down + [PeerUp(c)]), Join(room, p).room)
    ensures Settle({}, w.down + [PeerUp(c)]) == Settle({}, w.down) + {c}
  {
    hide Kicked, UpIds;
    SettleAppend({}, w.down, PeerUp(c));
    assert (w.down + [PeerUp(c)])[w.read..] == w.down[w.read..] + [PeerUp(c)];
    SettleAppend(link.peers.Keys, w.down[w.read..], PeerUp(c));
    assert Join(room, p).room.peers.Keys == room.peers.Keys + {c};
  }

  lemma JoinSockets(s: Sys, p: Socket)
    requires Enabled(s, Joins(p)) && SocketsOk(s.room, s.over, s.attached, s.severed, s.wires, s.ends.Keys)
    ensures var s' := Join1(s, p); SocketsOk(s'.room, s'.over, s'.attached, s'.severed, s'.wires, s'.ends.Keys)
  {
    var s' := Join1(s, p);
    JoinWires(s, p);
    assert s'.ends.Keys == s.ends.Keys;
    forall q | q in s'.attached ensures AttachedOk(q, s'.attached[q], s'.room, s'.severed, s'.wires, s'.ends.Keys) {
      if q != p { assert AttachedOk(q, s.attached[q], s.room, s.severed, s.wires, s.ends.Keys); }
    }
    forall d | d in s'.room.peers ensures MemberOk(d, s'.room.peers[d], s'.attached, s'.severed) {
      if d != s.room.nextConnId {
        assert MemberOk(d, s.room.peers[d], s.attached, s.severed);
        assert AttachedOk(s.room.peers[d], d, s.room, s.severed, s.wires, s.ends.Keys);
      }
    }
  }

  lemma JoinTenure(s: Sys, p: Socket)
    requires Enabled(s, Joins(p)) && TenureOk(s.room, s.ends[s.room.host].flows, s.wires[s.room.host], s.wires)
    requires s.room.nextConnId !in s.room.peers
    requires Settle({}, s.wires[s.room.host].down + [PeerUp(s.room.nextConnId)]) == Settle({}, s.wires[s.room.host].down) + {s.room.nextConnId}
    ensures var s' := Join1(s, p); TenureOk(s'.room, s'.ends[s'.room.host].flows, s'.wires[s'.room.host], s'.wires)
  {
    var s', h, c := Join1(s, p), s.room.host, s.room.nextConnId;
    hide SentTo;
    JoinWires(s, p);
    assert s'.room.peers.Keys == s.room.peers.Keys + {c};
    forall d | d in s'.room.peers
      ensures d in s'.ends[h].flows && s'.room.peers[d] in s'.wires
              && Counting(s'.ends[h].flows[d], s'.room.peers[d], s'.wires[s'.room.peers[d]], s'.wires[h], s'.room.deadline.Some?)
    {
      if d != c {
        assert s.room.peers[d] in s.wires && s.room.peers[d] != p;
      }
    }
  }

  lemma JoinOpen(s: Sys, p: Socket)
    requires Enabled(s, Joins(p)) && OpenOk(s.ends, s.room) && s.room.nextConnId !in s.room.peers
    requires forall g | g in s.ends :: forall d | d in s.ends[g].flows :: s.ends[g].flows[d].owner in s.wires
    ensures OpenOk(Join1(s, p).ends, Join1(s, p).room)
  {
    var s', c := Join1(s, p), s.room.nextConnId;
    hide Applied;
    assert s'.room.peers.Values <= s.room.peers.Values + {p};
    assert s'.room.peers[c] == p;
    forall g | g in s'.ends ensures OpenFlows(s'.ends[g].flows, g, s'.room) {
      assert OpenFlows(s.ends[g].flows, g, s.room);
      forall d | d in s'.ends[g].flows && s'.ends[g].flows[d].dend.None?
        ensures (g == s'.room.host && d in s'.room.peers && s'.room.peers[d] == s'.ends[g].flows[d].owner)
                || s'.ends[g].flows[d].owner !in s'.room.peers.Values
      {
        if g != s.room.host || d != c { assert s'.ends[g].flows[d] == s.ends[g].flows[d]; }
      }
    }
  }

  /** The facts about a state that every step needs. */
  lemma Basics(s: Sys)
    requires Inv(s)
    ensures s.room.host in s.ends && s.room.host in s.wires
    ensures s.room.nextConnId !in s.room.peers && forall q | q in s.wires :: s.wires[q].taken <= |s.wires[q].up|
    ensures HostOk(s.ends[s.room.host], s.wires[s.room.host], s.room.nextConnId)
    ensures forall g | g in s.ends :: forall d | d in s.ends[g].flows :: s.ends[g].flows[d].owner in s.wires
  {
    hide HostOk, FlowOk, ViewOk, TenureOk;
    forall c | c in s.room.peers ensures c < s.room.nextConnId {
      assert MemberOk(c, s.room.peers[c], s.attached, s.severed);
      assert AttachedOk(s.room.peers[c], c, s.room, s.severed, s.wires, s.ends.Keys);
    }
    forall g, d | g in s.ends && d in s.ends[g].flows ensures s.ends[g].flows[d].owner in s.wires {
      assert FlowsOk(s.ends[g].flows, g, s.wires, s.ends.Keys);
      assert OneFlowOk(s.ends[g].flows[d], d, g, s.wires, s.ends.Keys);
    }
  }

  lemma JoinKeeps(s: Sys, p: Socket)
    requires Inv(s) && Enabled(s, Joins(p))
    ensures Inv(Join1(s, p))
  {
    hide HostOk, FlowsOk, HostsOk, OpenOk, TenureOk, ViewOk, SentTo;
    var h := s.room.host;
    Basics(s);
    JoinSockets(s, p);
    JoinHosts(s, p);
    JoinOpen(s, p);
    KicksAreAnnounced(s.ends[h], s.wires[h], s.room.nextConnId);
    JoinView(s.ends[h].link, s.wires[h], s.room, s.room.nextConnId, p);
    JoinTenure(s, p);
    JoinWires(s, p);
  }

  // ----- the relay takes a peer's frame -----

  /** What the frame puts on the host's socket, and on the peer's own. */
  function Routed(room: Room, c: nat, buf: Buffer): seq<Down> {
    var d := DecodeDataFromPeer(buf);
    if !TypeIs(buf, PING) && room.deadline.None? && d.Some? && c < CONN_ID_LIMIT then [Raw(DataToHost(c, d.value))] else []
  }

  function Ponged(buf: Buffer): seq<Down> { if TypeIs(buf, PING) then [Pong] else [] }

  lemma RoutedIsTagged(room: Room, c: nat, buf: Buffer, d: nat)
    requires room.deadline.None? && c < CONN_ID_LIMIT
    ensures ToHost(Routed(room, c, buf), d) == if d == c then PeerSays(buf) else []
    ensures Routed(room, c, buf) != [] ==> TagOf(Routed(room, c, buf)[0]).Some? && TagOf(Routed(room, c, buf)[0]).value.connId == c
  {
    if Routed(room, c, buf) != [] {
      var p := DecodeDataFromPeer(buf).value;
      PeerToHostHop(c, p);
      HostHistory([], Raw(DataToHost(c, p)), d);
      assert [] + [Raw(DataToHost(c, p))] == [Raw(DataToHost(c, p))];
    }
  }

  lemma PongIsNoData(buf: Buffer)
    ensures ToPeer(Ponged(buf)) == []
  {
    PeerHistory([], Pong);
    assert [] + [Pong] == [Pong];
  }

  function PeerFrameOut(room: Room, c: nat, p: Socket, buf: Buffer): seq<Effect> {
    if TypeIs(buf, PING) then [Send(p, Pong)] else RelayRoom.FromPeer(room, c, buf).out
  }

  lemma PeerFrameReaches(room: Room, c: nat, p: Socket, buf: Buffer, q: Socket)
    requires p != room.host
    ensures SentTo(PeerFrameOut(room, c, p, buf), q) == if q == p then Ponged(buf) else if q == room.host then Routed(room, c, buf) else []
  {
    var out := PeerFrameOut(room, c, p, buf);
    if out != [] { SentOne(out[0], q); }
  }

  lemma PeerFrameWires(s: Sys, p: Socket)
    requires Enabled(s, PeerFrame(p)) && p != s.room.host && s.room.host in s.wires
    ensures var s', h, w := PeerFrame1(s, p), s.room.host, s.wires[p];
            var buf := w.up[w.taken];
            && s'.wires.Keys == s.wires.Keys
            && s'.wires[h] == s.wires[h].(down := s.wires[h].down + Routed(s.room, s.attached[p], buf))
            && s'.wires[p] == w.(taken := w.taken + 1, down := w.down + Ponged(buf))
            && (forall q | q in s.wires && q != h && q != p :: s'.wires[q] == s.wires[q])
  {
    var s', h, w := PeerFrame1(s, p), s.room.host, s.wires[p];
    var buf, c := w.up[w.taken], s.attached[p];
    var out := PeerFrameOut(s.room, c, p, buf);
    assert s'.wires == Applied(s.wires[p := w.(taken := w.taken + 1)], out);
    hide SentTo, Routed, Ponged, PeerFrameOut;
    PeerFrameReaches(s.room, c, p, buf, h);
    PeerFrameReaches(s.room, c, p, buf, p);
    forall q | q in s.wires && q != h && q != p ensures s'.wires[q] == s.wires[q] {
      PeerFrameReaches(s.room, c, p, buf, q);
      assert s.wires[q].down + [] == s.wires[q].down;
    }
  }

  lemma PeerFrameShape(s: Sys, p: Socket)
    requires Enabled(s, PeerFrame(p))
    ensures var s' := PeerFrame1(s, p);
            && s' == s.(wires := s'.wires, ends := s'.ends) && s'.ends.Keys == s.ends.Keys
            && (forall g | g in s.ends :: s'.ends[g].flows.Keys == s.ends[g].flows.Keys
                  && forall d | d in s.ends[g].flows ::
                       s'.ends[g].flows[d].dend == s.ends[g].flows[d].dend && s'.ends[g].flows[d].owner == s.ends[g].flows[d].owner)
  {
  }

  lemma PeerFrameGrows(s: Sys, p: Socket)
    requires Enabled(s, PeerFrame(p)) && p != s.room.host && s.room.host in s.wires
    requires forall q | q in s.wires :: s.wires[q].taken <= |s.wires[q].up|
    ensures var s', buf := PeerFrame1(s, p), s.wires[p].up[s.wires[p].taken];
            && AllGrown(s.wires, s'.wires)
            && forall q | q in s.wires :: Extra(s.wires[q], s'.wires[q])
                 == if q == p then Ponged(buf) else if q == s.room.host then Routed(s.room, s.attached[p], buf) else []
  {
    hide SentTo;
    PeerFrameWires(s, p);
  }

  /** Control frames towards the peer do not touch its half of the flow. */
  lemma QuietDown(f: Flow, d: seq<Down>, extra: seq<Down>)
    requires f.dbase <= (if f.dend.Some? then f.dend.value else |d|) <= |d| && ToPeer(extra) == []
    ensures var e, e' := if f.dend.Some? then f.dend.value else |d|, if f.dend.Some? then f.dend.value else |d + extra|;
            ToPeer((d + extra)[f.dbase..e']) == ToPeer(d[f.dbase..e])
  {
    if f.dend.Some? {
      assert (d + extra)[f.dbase..f.dend.value] == d[f.dbase..f.dend.value];
    } else {
      assert (d + extra)[f.dbase..|d + extra|] == d[f.dbase..|d|] + extra;
      ToPeerConcat(d[f.dbase..|d|], extra);
    }
  }

  /** The heart of the upward pipe: the frame taken is the frame sent on, under the peer's own connId. */
  lemma RoutedFlowOk(f: Flow, c: nat, hw: Wire, pw: Wire, room: Room)
    requires FlowOk(f, c, hw, pw) && f.end == pw.taken < |pw.up| && room.deadline.None? && c < CONN_ID_LIMIT
    ensures var buf := pw.up[pw.taken];
            FlowOk(f.(end := pw.taken + 1), c, hw.(down := hw.down + Routed(room, c, buf)),
                   pw.(taken := pw.taken + 1, down := pw.down + Ponged(buf)))
  {
    hide Routed, Ponged, PeerSays, ToPeer, ToHost, PeerSent, HostSent;
    var buf := pw.up[pw.taken];
    RoutedUp(f, c, hw, pw, room);
    PongIsNoData(buf);
    QuietDown(f, pw.down, Ponged(buf));
  }

  lemma RoutedUp(f: Flow, c: nat, hw: Wire, pw: Wire, room: Room)
    requires f.base <= f.end == pw.taken < |pw.up| && room.deadline.None? && c < CONN_ID_LIMIT
    requires ToHost(hw.down, c) == PeerSent(pw.up[f.base..f.end])
    ensures ToHost(hw.down + Routed(room, c, pw.up[pw.taken]), c) == PeerSent(pw.up[f.base..pw.taken + 1])
  {
    hide Routed, Ponged, PeerSays, ToPeer, ToHost, PeerSent, HostSent;
    var buf := pw.up[pw.taken];
    RoutedIsTagged(room, c, buf, c);
    ToHostConcat(hw.down, Routed(room, c, buf), c);
    PeerWrites(pw.up[f.base..f.end], buf);
    assert pw.up[f.base..f.end + 1] == pw.up[f.base..f.end] + [buf];
  }

  lemma PeerFrameOwnFlow(s: Sys, p: Socket)
    requires Enabled(s, PeerFrame(p)) && p !in s.ends && s.room.host in s.wires && s.attached[p] < CONN_ID_LIMIT && s.room.deadline.None?
    requires OneFlowOk(s.ends[s.room.host].flows[s.attached[p]], s.attached[p], s.room.host, s.wires, s.ends.Keys)
    requires Counting(s.ends[s.room.host].flows[s.attached[p]], p, s.wires[p], s.wires[s.room.host], false)
    ensures var s', h, c := PeerFrame1(s, p), s.room.host, s.attached[p];
            h in s'.wires && OneFlowOk(s'.ends[h].flows[c], c, h, s'.wires, s'.ends.Keys)
  {
    hide FlowOk, SentTo, Applied, Routed, Ponged;
    var h, c := s.room.host, s.attached[p];
    PeerFrameWires(s, p);
    RoutedFlowOk(s.ends[h].flows[c], c, s.wires[h], s.wires[p], s.room);
  }

  lemma RoutedElsewhere(room: Room, c: nat, buf: Buffer, d: nat)
    requires c < CONN_ID_LIMIT && (room.deadline.Some? || d != c)
    ensures ToHost(Routed(room, c, buf), d) == []
  {
    if room.deadline.None? { RoutedIsTagged(room, c, buf, d); }
  }

  lemma NothingIsNothing(d: nat)
    ensures ToHost([], d) == [] && ToPeer([]) == []
  {
  }

  lemma PeerFrameOtherFlow(s: Sys, p: Socket, g: Socket, d: nat)
    requires Enabled(s, PeerFrame(p)) && g in s.ends && p !in s.ends && s.room.host in s.wires && s.attached[p] < CONN_ID_LIMIT
    requires forall q | q in s.wires :: s.wires[q].taken <= |s.wires[q].up|
    requires d in s.ends[g].flows && g in s.wires && OneFlowOk(s.ends[g].flows[d], d, g, s.wires, s.ends.Keys)
    requires s.room.deadline.Some? || g != s.room.host || d != s.attached[p]
    ensures g in PeerFrame1(s, p).wires && OneFlowOk(s.ends[g].flows[d], d, g, PeerFrame1(s, p).wires, s.ends.Keys)
  {
    hide FlowOk, PeerFrame1, Routed, Ponged, ToHost, ToPeer;
    var buf := s.wires[p].up[s.wires[p].taken];
    PongIsNoData(buf);
    NothingIsNothing(d);
    if g == s.room.host { RoutedElsewhere(s.room, s.attached[p], buf, d); }
    PeerFrameGrows(s, p);
    FlowCarries(s.ends[g].flows[d], d, g, s.wires, PeerFrame1(s, p).wires, s.ends.Keys, s.ends.Keys);
  }

  lemma PeerFrameFlows(s: Sys, p: Socket, g: Socket)
    requires Enabled(s, PeerFrame(p)) && g in s.ends && p !in s.ends && s.room.host in s.wires && s.attached[p] < CONN_ID_LIMIT
    requires forall q | q in s.wires :: s.wires[q].taken <= |s.wires[q].up|
    requires FlowsOk(s.ends[g].flows, g, s.wires, s.ends.Keys)
    requires Counting(s.ends[s.room.host].flows[s.attached[p]], p, s.wires[p], s.wires[s.room.host], s.room.deadline.Some?)
    ensures FlowsOk(PeerFrame1(s, p).ends[g].flows, g, PeerFrame1(s, p).wires, PeerFrame1(s, p).ends.Keys)
  {
    hide OneFlowOk, SentTo, Applied;
    var s', h, c := PeerFrame1(s, p), s.room.host, s.attached[p];
    assert s'.ends.Keys == s.ends.Keys;
    PeerFrameWires(s, p);
    forall d | d in s'.ends[g].flows ensures OneFlowOk(s'.ends[g].flows[d], d, g, s'.wires, s'.ends.Keys) {
      if s.room.deadline.None? && g == h && d == c {
        PeerFrameOwnFlow(s, p);
      } else {
        assert s'.ends[g].flows[d] == s.ends[g].flows[d];
        PeerFrameOtherFlow(s, p, g, d);
      }
    }
  }

  lemma PeerFrameHost(s: Sys, p: Socket, g: Socket)
    requires Enabled(s, PeerFrame(p)) && g in s.ends && g in s.wires && p !in s.ends && s.room.host in s.wires
    requires HostOk(s.ends[g], s.wires[g], s.room.nextConnId)
    requires g == s.room.host ==> s.attached[p] in Settle({}, s.wires[g].down) && s.attached[p] < CONN_ID_LIMIT
    ensures var s' := PeerFrame1(s, p); g in s'.wires && HostOk(s'.ends[g], s'.wires[g], s'.room.nextConnId)
  {
    hide HostOk, SentTo, Applied;
    var s', buf := PeerFrame1(s, p), s.wires[p].up[s.wires[p].taken];
    PeerFrameWires(s, p);
    var e, w := s.ends[g], s.wires[g];
    assert s'.ends[g].flows.Keys == e.flows.Keys;
    assert s'.ends[g] == e.(flows := s'.ends[g].flows);
    var r := Routed(s.room, s.attached[p], buf);
    HostIsDisciplined(e, w, s.room.nextConnId);
    if g == s.room.host && r != [] {
      RoutedIsTagged(s.room, s.attached[p], buf, 0);
      DisciplinedAppend(w.down, r[0]);
      assert r == [r[0]];
      HostDownGrows(e, s'.ends[g].flows, w, s'.wires[g], r[0], s.room.nextConnId);
    } else {
      assert w.down + [] == w.down;
      HostUnchanged(e, s'.ends[g].flows, w, s'.wires[g], s.room.nextConnId, s.room.nextConnId);
    }
  }

  lemma HostIsDisciplined(e: HostEnd, w: Wire, next: nat)
    requires HostOk(e, w, next)
    ensures Disciplined(w.down) && w.down != [] && w.taken <= |w.up| && w.read <= |w.down| && next <= CONN_ID_LIMIT && LinkInv(e.link)
  {
  }

  lemma PeerFrameHosts(s: Sys, p: Socket)
    requires Enabled(s, PeerFrame(p)) && p !in s.ends && s.room.host in s.wires && s.attached[p] < CONN_ID_LIMIT
    requires forall q | q in s.wires :: s.wires[q].taken <= |s.wires[q].up|
    requires HostsOk(s.ends, s.wires, s.room.nextConnId)
    requires s.attached[p] in Settle({}, s.wires[s.room.host].down)
    requires Counting(s.ends[s.room.host].flows[s.attached[p]], p, s.wires[p], s.wires[s.room.host], s.room.deadline.Some?)
    ensures var s' := PeerFrame1(s, p); HostsOk(s'.ends, s'.wires, s'.room.nextConnId)
  {
    var s' := PeerFrame1(s, p);
    hide HostOk, FlowsOk, Applied, Counting;
    assert s'.ends.Keys == s.ends.Keys;
    forall g | g in s'.ends
      ensures g in s'.wires && HostOk(s'.ends[g], s'.wires[g], s'.room.nextConnId) && FlowsOk(s'.ends[g].flows, g, s'.wires, s'.ends.Keys)
    {
      PeerFrameHost(s, p, g);
      PeerFrameFlows(s, p, g);
    }
  }

  /** A frame that announces nobody leaves the view as it is. */
  lemma QuietView(link: HostLink, w: Wire, room: Room, extra: seq<Down>)
    requires ViewOk(link, w, room) && |extra| <= 1 && forall m | m in extra :: !m.PeerUp? && !m.PeerDown?
    ensures ViewOk(link, w.(down := w.down + extra), room)
    ensures Settle({}, w.down + extra) == Settle({}, w.down)
  {
    hide Settle, Kicked;
    if extra == [] {
      assert w.down + [] == w.down;
    } else {
      assert extra == [extra[0]];
      SettleNeutral({}, w.down, extra[0]);
      SettleNeutral(link.peers.Keys, w.down[w.read..], extra[0]);
      assert (w.down + [extra[0]])[w.read..] == w.down[w.read..] + [extra[0]];
    }
  }

  lemma PeerFrameTenure(s: Sys, p: Socket)
    requires Enabled(s, PeerFrame(p)) && p !in s.ends && s.room.host in s.wires
    requires TenureOk(s.room, s.ends[s.room.host].flows, s.wires[s.room.host], s.wires)
    requires ViewOk(s.ends[s.room.host].link, s.wires[s.room.host], s.room)
    requires forall c | c in s.room.peers :: s.room.peers[c] != s.room.host && (s.room.peers[c] == p <==> c == s.attached[p])
    ensures var s', h := PeerFrame1(s, p), s.room.host;
            TenureOk(s'.room, s'.ends[h].flows, s'.wires[h], s'.wires) && ViewOk(s'.ends[h].link, s'.wires[h], s'.room)
  {
    var s', h, c := PeerFrame1(s, p), s.room.host, s.attached[p];
    QuietView(s.ends[h].link, s.wires[h], s.room, Routed(s.room, c, s.wires[p].up[s.wires[p].taken]));
    hide ViewOk, Settle, Applied, SentTo, Routed, Ponged;
    PeerFrameWires(s, p);
    forall d | d in s'.room.peers
      ensures d in s'.ends[h].flows && s'.room.peers[d] in s'.wires
              && Counting(s'.ends[h].flows[d], s'.room.peers[d], s'.wires[s'.room.peers[d]], s'.wires[h], s'.room.deadline.Some?)
    {
      assert Counting(s.ends[h].flows[d], s.room.peers[d], s.wires[s.room.peers[d]], s.wires[h], s.room.deadline.Some?);
    }
  }

  /** Steps that change no flow's owner or dend, and no room member, keep the open flows as they were. */
  lemma SameOpen(ends: map<Socket, HostEnd>, ends': map<Socket, HostEnd>, room: Room, room': Room)
    requires OpenOk(ends, room) && ends'.Keys == ends.Keys && room'.host == room.host && room'.peers == room.peers
    requires forall g | g in ends :: ends'[g].flows.Keys == ends[g].flows.Keys
              && forall d | d in ends[g].flows :: ends'[g].flows[d].dend == ends[g].flows[d].dend && ends'[g].flows[d].owner == ends[g].flows[d].owner
    ensures OpenOk(ends', room')
  {
    forall g | g in ends' ensures OpenFlows(ends'[g].flows, g, room') {
      assert OpenFlows(ends[g].flows, g, room);
    }
  }

  lemma PeerFrameSockets(s: Sys, p: Socket)
    requires Enabled(s, PeerFrame(p)) && p !in s.ends && s.room.host in s.wires
    requires SocketsOk(s.room, s.over, s.attached, s.severed, s.wires, s.ends.Keys)
    ensures var s' := PeerFrame1(s, p);
            SocketsOk(s'.room, s'.over, s'.attached, s'.severed, s'.wires, s'.ends.Keys) && OpenOk(s.ends, s.room) ==> OpenOk(s'.ends, s'.room)
  {
    var s' := PeerFrame1(s, p);
    hide PeerFrame1, Routed, Ponged;
    PeerFrameWires(s, p);
    PeerFrameShape(s, p);
    assert s'.ends.Keys == s.ends.Keys;
    if OpenOk(s.ends, s.room) { SameOpen(s.ends, s'.ends, s.room, s'.room); }
    forall q | q in s'.attached ensures AttachedOk(q, s'.attached[q], s'.room, s'.severed, s'.wires, s'.ends.Keys) {
      assert AttachedOk(q, s.attached[q], s.room, s.severed, s.wires, s.ends.Keys);
    }
  }

  /** What the sockets' invariant says about a live peer and about the room's members. */
  lemma Members(s: Sys)
    requires SocketsOk(s.room, s.over, s.attached, s.severed, s.wires, s.ends.Keys)
    ensures forall c | c in s.room.peers :: s.room.peers[c] in s.wires && s.room.peers[c] !in s.ends && s.room.peers[c] !in s.severed
              && s.room.peers[c] in s.attached && s.attached[s.room.peers[c]] == c && c < s.room.nextConnId
    ensures forall p | p in s.attached :: p in s.wires && p !in s.ends
    ensures forall p | p in s.attached && p !in s.severed :: s.attached[p] in s.room.peers && s.room.peers[s.attached[p]] == p
  {
    forall c | c in s.room.peers
      ensures s.room.peers[c] in s.wires && s.room.peers[c] !in s.ends && s.room.peers[c] !in s.severed
              && s.room.peers[c] in s.attached && s.attached[s.room.peers[c]] == c && c < s.room.nextConnId
    {
      assert MemberOk(c, s.room.peers[c], s.attached, s.severed);
      assert AttachedOk(s.room.peers[c], c, s.room, s.severed, s.wires, s.ends.Keys);
    }
    forall p | p in s.attached ensures p in s.wires && p !in s.ends && (p !in s.severed ==> s.attached[p] in s.room.peers && s.room.peers[s.attached[p]] == p) {
      assert AttachedOk(p, s.attached[p], s.room, s.severed, s.wires, s.ends.Keys);
    }
  }

  lemma PeerFrameKeeps(s: Sys, p: Socket)
    requires Inv(s) && Enabled(s, PeerFrame(p))
    ensures Inv(PeerFrame1(s, p))
  {
    hide HostOk, FlowsOk, HostsOk, OpenOk, ViewOk, SentTo;
    var h, c := s.room.host, s.attached[p];
    Basics(s);
    Members(s);
    HostIsDisciplined(s.ends[h], s.wires[h], s.room.nextConnId);
    assert Counting(s.ends[h].flows[c], s.room.peers[c], s.wires[s.room.peers[c]], s.wires[h], s.room.deadline.Some?);
    assert c in Settle({}, s.wires[h].down);
    hide SocketsOk, TenureOk;
    PeerFrameHosts(s, p);
    PeerFrameTenure(s, p);
    PeerFrameSockets(s, p);
  }

  // ----- a peer's socket closes -----

  lemma PeerCloseShape(s: Sys, p: Socket)
    requires Enabled(s, PeerCloses(p)) && s.room.host in s.wires
    ensures var s', h, c := PeerClose1(s, p), s.room.host, s.attached[p];
            && s' == s.(room := s.room.(peers := Without(s.room.peers, c)), attached := s.attached - {p}, wires := s'.wires)
            && s'.wires.Keys == s.wires.Keys
            && s'.wires[h] == s.wires[h].(down := s.wires[h].down + [PeerDown(c)])
            && (forall q | q in s.wires && q != h :: s'.wires[q] == s.wires[q])
  {
    var s', h, c := PeerClose1(s, p), s.room.host, s.attached[p];
    SentOne(Send(h, PeerDown(c)), h);
    forall q | q in s.wires && q != h ensures s'.wires[q] == s.wires[q] {
      SentOne(Send(h, PeerDown(c)), q);
      assert s.wires[q].down + [] == s.wires[q].down;
    }
  }

  lemma PeerCloseGrows(s: Sys, p: Socket)
    requires Enabled(s, PeerCloses(p)) && s.room.host in s.wires
    requires forall q | q in s.wires :: s.wires[q].taken <= |s.wires[q].up|
    ensures AllGrown(s.wires, PeerClose1(s, p).wires)
    ensures forall q | q in s.wires :: q in PeerClose1(s, p).wires
              && Extra(s.wires[q], PeerClose1(s, p).wires[q]) == if q == s.room.host then [PeerDown(s.attached[p])] else []
  {
    PeerCloseShape(s, p);
    hide PeerClose1;
  }

  lemma PeerCloseHost(s: Sys, p: Socket, g: Socket)
    requires Enabled(s, PeerCloses(p)) && g in s.ends && g in s.wires && s.room.host in s.ends && s.room.host in s.wires
    requires HostOk(s.ends[g], s.wires[g], s.room.nextConnId)
    ensures g in PeerClose1(s, p).wires && HostOk(s.ends[g], PeerClose1(s, p).wires[g], s.room.nextConnId)
  {
    hide HostOk, PeerClose1;
    PeerCloseShape(s, p);
    var e, w := s.ends[g], s.wires[g];
    if g == s.room.host {
      HostIsDisciplined(e, w, s.room.nextConnId);
      DisciplinedAppend(w.down, PeerDown(s.attached[p]));
      HostDownGrows(e, e.flows, w, PeerClose1(s, p).wires[g], PeerDown(s.attached[p]), s.room.nextConnId);
    }
  }

  lemma PeerCloseFlows(s: Sys, p: Socket, g: Socket)
    requires Enabled(s, PeerCloses(p)) && g in s.ends && s.room.host in s.ends && s.room.host in s.wires
    requires forall q | q in s.wires :: s.wires[q].taken <= |s.wires[q].up|
    requires FlowsOk(s.ends[g].flows, g, s.wires, s.ends.Keys)
    ensures FlowsOk(s.ends[g].flows, g, PeerClose1(s, p).wires, s.ends.Keys)
  {
    hide FlowOk, PeerClose1;
    PeerCloseGrows(s, p);
    PeerCloseShape(s, p);
    forall d | d in s.ends[g].flows ensures OneFlowOk(s.ends[g].flows[d], d, g, PeerClose1(s, p).wires, s.ends.Keys) {
      NothingIsNothing(d);
      UpIsNoData(s.attached[p], d);
      FlowCarries(s.ends[g].flows[d], d, g, s.wires, PeerClose1(s, p).wires, s.ends.Keys, s.ends.Keys);
    }
  }

  lemma PeerCloseHosts(s: Sys, p: Socket)
    requires Enabled(s, PeerCloses(p)) && HostsOk(s.ends, s.wires, s.room.nextConnId) && s.room.host in s.ends
    requires forall q | q in s.wires :: s.wires[q].taken <= |s.wires[q].up|
    ensures HostsOk(s.ends, PeerClose1(s, p).wires, s.room.nextConnId)
  {
    hide HostOk, FlowsOk, PeerClose1;
    forall g | g in s.ends
      ensures g in PeerClose1(s, p).wires && HostOk(s.ends[g], PeerClose1(s, p).wires[g], s.room.nextConnId)
              && FlowsOk(s.ends[g].flows, g, PeerClose1(s, p).wires, s.ends.Keys)
    {
      PeerCloseHost(s, p, g);
      PeerCloseFlows(s, p, g);
    }
  }

  lemma PeerCloseSockets(s: Sys, p: Socket)
    requires Enabled(s, PeerCloses(p)) && s.room.host in s.wires
    requires SocketsOk(s.room, s.over, s.attached, s.severed, s.wires, s.ends.Keys)
    ensures var s' := PeerClose1(s, p); SocketsOk(s'.room, s'.over, s'.attached, s'.severed, s'.wires, s'.ends.Keys)
  {
    var s', c := PeerClose1(s, p), s.attached[p];
    PeerCloseShape(s, p);
    Members(s);
    hide PeerClose1;
    forall q | q in s'.attached ensures AttachedOk(q, s'.attached[q], s'.room, s'.severed, s'.wires, s'.ends.Keys) {
      assert AttachedOk(q, s.attached[q], s.room, s.severed, s.wires, s.ends.Keys);
      assert s.attached[q] != c;
    }
    forall d | d in s'.room.peers ensures MemberOk(d, s'.room.peers[d], s'.attached, s'.severed) {
      assert MemberOk(d, s.room.peers[d], s.attached, s.severed);
    }
  }

  lemma PeerDownView(link: HostLink, w: Wire, room: Room, c: nat)
    requires ViewOk(link, w, room)
    ensures ViewOk(link, w.(down := w.down + [PeerDown(c)]), room.(peers := Without(room.peers, c)))
    ensures Settle({}, w.down + [PeerDown(c)]) == Settle({}, w.down) - {c}
  {
    SettleAppend({}, w.down, PeerDown(c));
    SettleAppend(link.peers.Keys, w.down[w.read..], PeerDown(c));
    assert (w.down + [PeerDown(c)])[w.read..] == w.down[w.read..] + [PeerDown(c)];
    assert Without(room.peers, c).Keys == room.peers.Keys - {c};
  }

  lemma PeerCloseCounting(room: Room, flows: map<nat, Flow>, wires: map<Socket, Wire>, w: Wire, wires': map<Socket, Wire>, w': Wire, c: nat)
    requires TenureOk(room, flows, w, wires) && wires'.Keys == wires.Keys && w'.taken == w.taken
    requires forall q | q in wires :: wires'[q].taken == wires[q].taken
    requires Settle({}, w'.down) == Settle({}, w.down) - {c}
    ensures TenureOk(room.(peers := Without(room.peers, c)), flows, w', wires')
  {
    hide Settle;
    assert Without(room.peers, c).Keys == room.peers.Keys - {c};
  }

  lemma PeerCloseTenure(s: Sys, p: Socket)
    requires Enabled(s, PeerCloses(p)) && s.room.host in s.wires && s.room.host in s.ends
    requires TenureOk(s.room, s.ends[s.room.host].flows, s.wires[s.room.host], s.wires)
    requires ViewOk(s.ends[s.room.host].link, s.wires[s.room.host], s.room)
    requires forall c | c in s.room.peers :: s.room.peers[c] != s.room.host
    ensures var s', h := PeerClose1(s, p), s.room.host;
            TenureOk(s'.room, s'.ends[h].flows, s'.wires[h], s'.wires) && ViewOk(s'.ends[h].link, s'.wires[h], s'.room)
  {
    hide PeerClose1, ViewOk, TenureOk, Settle, Counting;
    var s', h, c := PeerClose1(s, p), s.room.host, s.attached[p];
    PeerCloseShape(s, p);
    PeerDownView(s.ends[h].link, s.wires[h], s.room, c);
    PeerCloseCounting(s.room, s.ends[h].flows, s.wires, s.wires[h], s'.wires, s'.wires[h], c);
  }

  lemma PeerCloseOpen(s: Sys, p: Socket)
    requires Enabled(s, PeerCloses(p)) && s.room.host in s.wires && OpenOk(s.ends, s.room) && OneIdEach(s.room.peers)
    ensures OpenOk(s.ends, PeerClose1(s, p).room)
  {
    var room' := PeerClose1(s, p).room;
    assert room'.peers.Values <= s.room.peers.Values;
    forall g | g in s.ends ensures OpenFlows(s.ends[g].flows, g, room') {
      assert OpenFlows(s.ends[g].flows, g, s.room);
    }
  }

  lemma PeerCloseKeeps(s: Sys, p: Socket)
    requires Inv(s) && Enabled(s, PeerCloses(p))
    ensures Inv(PeerClose1(s, p))
  {
    hide HostOk, FlowsOk, HostsOk, OpenOk, ViewOk, TenureOk;
    Basics(s);
    Members(s);
    PeerCloseShape(s, p);
    hide SocketsOk, PeerClose1;
    PeerCloseHosts(s, p);
    PeerCloseSockets(s, p);
    PeerCloseTenure(s, p);
    PeerCloseOpen(s, p);
  }
}
