/** The steps that end a tenure: a claim by the successor, and the end of the room. */
module ClaimSteps {
  import opened Bytes
  import opened RelayWire
  import opened ClientWire
  import opened RelayRoom
  import opened RelayLink
  import opened Streams
  import opened Multiplexer
  import opened MultiplexerProof
  import opened HostSteps
  import opened RelaySteps

  lemma {:induction false} UpsOfAscending(peers: map<nat, Socket>, bound: nat)
    ensures forall c :: c in Ascending(peers, bound) <==> c in peers && c < bound
    ensures forall i, j | 0 <= i < j < |Ascending(peers, bound)| :: Ascending(peers, bound)[i] != Ascending(peers, bound)[j]
  {
    if bound > 0 {
      UpsOfAscending(peers, bound - 1);
      var before := Ascending(peers, bound - 1);
      forall i, j | 0 <= i < j < |Ascending(peers, bound)| ensures Ascending(peers, bound)[i] != Ascending(peers, bound)[j] {
        assert before[i] in before;
      }
    }
  }

  function Greeting(peers: map<nat, Socket>, bound: nat): seq<Down> {
    [Ready(None)] + Ups(Ascending(peers, bound))
  }

  lemma FirstGreeting(peers: map<nat, Socket>, d: nat)
    ensures Greeting(peers, 0) == [Ready(None)] && Disciplined([Ready(None)]) && UpIds([Ready(None)]) == []
    ensures Settle({}, [Ready(None)]) == {} && ToHost([Ready(None)], d) == []
  {
    assert [Ready(None)] == [] + [Ready(None)];
    DisciplinedAppend([], Ready(None));
    SettleAppend({}, [], Ready(None));
    HostHistory([], Ready(None), d);
  }

  lemma NextGreeting(before: seq<Down>, c: nat, d: nat)
    requires Disciplined(before) && before != [] && c !in UpIds(before)
    ensures Disciplined(before + [PeerUp(c)]) && UpIds(before + [PeerUp(c)]) == UpIds(before) + [c]
    ensures Settle({}, before + [PeerUp(c)]) == Settle({}, before) + {c}
    ensures ToHost(before + [PeerUp(c)], d) == ToHost(before, d)
  {
    DisciplinedAppend(before, PeerUp(c));
    SettleAppend({}, before, PeerUp(c));
    HostHistory(before, PeerUp(c), d);
  }

  /** What a new host is sent at a claim is a well-formed beginning that announces exactly the members. */
  lemma {:induction false} GreetingIsDisciplined(peers: map<nat, Socket>, bound: nat, d: nat)
    ensures Disciplined(Greeting(peers, bound))
    ensures UpIds(Greeting(peers, bound)) == Ascending(peers, bound)
    ensures Settle({}, Greeting(peers, bound)) == set c | c in peers && c < bound
    ensures ToHost(Greeting(peers, bound), d) == []
  {
    hide Disciplined, UpIds, Settle, ToHost;
    if bound == 0 {
      FirstGreeting(peers, d);
    } else {
      var before, c := Greeting(peers, bound - 1), bound - 1;
      GreetingIsDisciplined(peers, c, d);
      if c in peers {
        assert Greeting(peers, bound) == before + [PeerUp(c)];
        UpsOfAscending(peers, c);
        NextGreeting(before, c, d);
      }
    }
  }

  // ----- a claim -----

  lemma ClaimReachesOne(room: Room, h: Socket, q: Socket)
    requires h !in room.peers.Values && OneIdEach(room.peers) && forall c | c in room.peers :: c < room.nextConnId
    ensures SentTo(Claim(room, h).out, q)
         == if q == h then Greeting(room.peers, room.nextConnId) else if q in room.peers.Values then [HostClaimed] else []
  {
    hide ClaimNotices, SentTo, Below;
    var notices := ClaimNotices(h, room.peers, room.nextConnId);
    BelowAll(room.peers, room.nextConnId, q);
    SentToConcat([Send(h, Ready(None))], notices, q);
    SentOne(Send(h, Ready(None)), q);
    if q == h { ClaimNoticesToHost(h, room.peers, room.nextConnId); } else { ClaimNoticesToPeer(h, room.peers, room.nextConnId, q); }
  }

  ghost predicate ClaimSetting(s: Sys, h: Socket) {
    && Enabled(s, Claims(h)) && OneIdEach(s.room.peers) && h !in s.room.peers.Values
    && (forall c | c in s.room.peers :: c < s.room.nextConnId && s.room.peers[c] !in s.ends)
    && h !in s.ends
  }

  lemma ClaimShape(s: Sys, h: Socket)
    requires ClaimSetting(s, h)
    ensures var s', g := Claim1(s, h), s.room.host;
            && s' == s.(room := s.room.(host := h, deadline := None), wires := s'.wires, ends := s'.ends)
            && s'.wires.Keys == s.wires.Keys + {h}
            && s'.wires[h] == Wire([], 0, Greeting(s.room.peers, s.room.nextConnId), 0)
            && (forall q | q in s.wires ::
                  s'.wires[q] == s.wires[q].(down := s.wires[q].down + if q in s.room.peers.Values then [HostClaimed] else []))
  {
    var s' := Claim1(s, h);
    hide ClaimNotices, SentTo;
    ClaimReachesOne(s.room, h, h);
    assert [] + Greeting(s.room.peers, s.room.nextConnId) == Greeting(s.room.peers, s.room.nextConnId);
    forall q | q in s.wires
      ensures s'.wires[q] == s.wires[q].(down := s.wires[q].down + if q in s.room.peers.Values then [HostClaimed] else [])
    {
      ClaimReachesOne(s.room, h, q);
    }
  }

  lemma ClaimEnds(s: Sys, h: Socket)
    requires ClaimSetting(s, h)
    ensures var s', g := Claim1(s, h), s.room.host;
            && s'.ends.Keys == s.ends.Keys + {h}
            && s'.ends[h].link == NEW_LINK && s'.ends[h].flows.Keys == s.room.peers.Keys
            && (forall c | c in s.room.peers ::
                  var p := s.room.peers[c];
                  p in s'.wires && s'.ends[h].flows[c] == Flow(p, s.wires[p].taken, s.wires[p].taken, |s'.wires[p].down|, None, 0))
            && (forall e | e in s.ends :: s'.ends[e].link == s.ends[e].link && s'.ends[e].flows.Keys == s.ends[e].flows.Keys)
            && (forall e | e in s.ends && e != g :: s'.ends[e] == s.ends[e])
            && (forall c | c in s.ends[g].flows :: s'.ends[g].flows[c] ==
                  if c in s.room.peers then s.ends[g].flows[c].(dend := Some(|s.wires[s.room.peers[c]].down|)) else s.ends[g].flows[c])
  {
    hide Claim, Applied;
    ClaimShape(s, h);
  }

  lemma ClaimGrows(s: Sys, h: Socket)
    requires ClaimSetting(s, h)
    requires forall q | q in s.wires :: s.wires[q].taken <= |s.wires[q].up|
    ensures var s' := Claim1(s, h);
            && AllGrown(s.wires, s'.wires)
            && forall q | q in s.wires :: q in s'.wires && Extra(s.wires[q], s'.wires[q]) == if q in s.room.peers.Values then [HostClaimed] else []
  {
    ClaimShape(s, h);
    hide Claim1;
  }

  lemma ClaimedIsNoData(d: nat)
    ensures ToPeer([HostClaimed]) == [] && ToHost([HostClaimed], d) == []
  {
    PeerHistory([], HostClaimed);
    HostHistory([], HostClaimed, d);
    assert [] + [HostClaimed] == [HostClaimed];
  }

  lemma SealedFlowOk(f: Flow, c: nat, h: Socket, s: Sys)
    requires h in s.wires && OneFlowOk(f, c, h, s.wires, s.ends.Keys) && f.dend.None?
    ensures OneFlowOk(f.(dend := Some(|s.wires[f.owner].down|)), c, h, s.wires, s.ends.Keys)
  {
  }

  lemma ClaimOldFlow(s: Sys, h: Socket, g: Socket, d: nat)
    requires ClaimSetting(s, h) && g in s.ends && d in s.ends[g].flows
    requires forall q | q in s.wires :: s.wires[q].taken <= |s.wires[q].up|
    requires g in s.wires && g !in s.room.peers.Values && OneFlowOk(s.ends[g].flows[d], d, g, s.wires, s.ends.Keys)
    requires g == s.room.host && d in s.room.peers ==> Counting(s.ends[g].flows[d], s.room.peers[d], s.wires[s.room.peers[d]], s.wires[g], true)
    ensures var s' := Claim1(s, h);
            g in s'.wires && g in s'.ends && d in s'.ends[g].flows && OneFlowOk(s'.ends[g].flows[d], d, g, s'.wires, s'.ends.Keys)
  {
    hide FlowOk, Claim1, ToPeer, ToHost;
    ClaimEnds(s, h);
    ClaimGrows(s, h);
    ClaimedIsNoData(d);
    NothingIsNothing(d);
    var f := s.ends[g].flows[d];
    if g == s.room.host && d in s.room.peers {
      SealedFlowOk(f, d, g, s);
      FlowCarries(f.(dend := Some(|s.wires[f.owner].down|)), d, g, s.wires, Claim1(s, h).wires, s.ends.Keys, Claim1(s, h).ends.Keys);
    } else {
      FlowCarries(f, d, g, s.wires, Claim1(s, h).wires, s.ends.Keys, Claim1(s, h).ends.Keys);
    }
  }

  lemma ClaimNewFlow(s: Sys, h: Socket, c: nat)
    requires ClaimSetting(s, h) && c in s.room.peers
    requires forall q | q in s.wires :: s.wires[q].taken <= |s.wires[q].up|
    ensures var s' := Claim1(s, h);
            h in s'.wires && h in s'.ends && c in s'.ends[h].flows && OneFlowOk(s'.ends[h].flows[c], c, h, s'.wires, s'.ends.Keys)
  {
    hide Claim1, Greeting;
    ClaimEnds(s, h);
    ClaimShape(s, h);
    GreetingIsDisciplined(s.room.peers, s.room.nextConnId, c);
    var p, s' := s.room.peers[c], Claim1(s, h);
    var t, n := s.wires[p].taken, |s'.wires[p].down|;
    assert s'.wires[p].up[t..t] == [] && s'.wires[p].down[n..n] == [];
    assert p != h && p !in s'.ends.Keys by { assert p in s.room.peers.Values; }
  }

  lemma ClaimFlows(s: Sys, h: Socket, g: Socket)
    requires ClaimSetting(s, h) && g in s.ends && g !in s.room.peers.Values
    requires forall q | q in s.wires :: s.wires[q].taken <= |s.wires[q].up|
    requires FlowsOk(s.ends[g].flows, g, s.wires, s.ends.Keys)
    requires TenureOk(s.room, s.ends[s.room.host].flows, s.wires[s.room.host], s.wires)
    ensures var s' := Claim1(s, h); g in s'.ends && FlowsOk(s'.ends[g].flows, g, s'.wires, s'.ends.Keys)
  {
    hide OneFlowOk, Claim1, Counting;
    ClaimEnds(s, h);
    ClaimShape(s, h);
    forall d | d in Claim1(s, h).ends[g].flows
      ensures OneFlowOk(Claim1(s, h).ends[g].flows[d], d, g, Claim1(s, h).wires, Claim1(s, h).ends.Keys)
    {
      ClaimOldFlow(s, h, g, d);
    }
  }

  lemma ClaimOldHost(s: Sys, h: Socket, g: Socket)
    requires ClaimSetting(s, h) && g in s.ends && g in s.wires && g !in s.room.peers.Values
    requires HostOk(s.ends[g], s.wires[g], s.room.nextConnId)
    ensures var s' := Claim1(s, h); g in s'.ends && g in s'.wires && HostOk(s'.ends[g], s'.wires[g], s.room.nextConnId)
  {
    hide HostOk, Claim1;
    ClaimEnds(s, h);
    ClaimShape(s, h);
    HostIsDisciplined(s.ends[g], s.wires[g], s.room.nextConnId);
    assert s.wires[g].down + [] == s.wires[g].down;
    HostUnchanged(s.ends[g], Claim1(s, h).ends[g].flows, s.wires[g], Claim1(s, h).wires[g], s.room.nextConnId, s.room.nextConnId);
    assert Claim1(s, h).ends[g] == s.ends[g].(flows := Claim1(s, h).ends[g].flows);
  }

  lemma NewHostOk(peers: map<nat, Socket>, next: nat, flows: map<nat, Flow>)
    requires flows.Keys == peers.Keys && next <= CONN_ID_LIMIT && forall c | c in peers :: c < next
    ensures HostOk(HostEnd(NEW_LINK, flows), Wire([], 0, Greeting(peers, next), 0), next)
  {
    GreetingIsDisciplined(peers, next, 0);
    UpsOfAscending(peers, next);
    assert Greeting(peers, next)[..0] == [];
    assert forall c :: c in flows <==> c in flows.Keys;
  }

  lemma ClaimHosts(s: Sys, h: Socket)
    requires ClaimSetting(s, h) && HostsOk(s.ends, s.wires, s.room.nextConnId) && s.room.nextConnId <= CONN_ID_LIMIT
    requires forall q | q in s.wires :: s.wires[q].taken <= |s.wires[q].up|
    requires TenureOk(s.room, s.ends[s.room.host].flows, s.wires[s.room.host], s.wires)
    ensures var s' := Claim1(s, h); HostsOk(s'.ends, s'.wires, s.room.nextConnId)
  {
    hide HostOk, Claim1, TenureOk, OneFlowOk;
    var s' := Claim1(s, h);
    ClaimEnds(s, h);
    ClaimShape(s, h);
    forall g | g in s'.ends
      ensures g in s'.wires && HostOk(s'.ends[g], s'.wires[g], s.room.nextConnId) && FlowsOk(s'.ends[g].flows, g, s'.wires, s'.ends.Keys)
    {
      if g == h {
        NewHostOk(s.room.peers, s.room.nextConnId, s'.ends[h].flows);
        assert s'.ends[h] == HostEnd(NEW_LINK, s'.ends[h].flows);
        forall c | c in s'.ends[h].flows ensures OneFlowOk(s'.ends[h].flows[c], c, h, s'.wires, s'.ends.Keys) { ClaimNewFlow(s, h, c); }
      } else {
        assert g !in s.room.peers.Values;
        ClaimOldHost(s, h, g);
        ClaimFlows(s, h, g);
      }
    }
  }

  lemma ClaimSockets(s: Sys, h: Socket)
    requires ClaimSetting(s, h) && SocketsOk(s.room, s.over, s.attached, s.severed, s.wires, s.ends.Keys)
    ensures var s' := Claim1(s, h); SocketsOk(s'.room, s'.over, s'.attached, s'.severed, s'.wires, s'.ends.Keys)
  {
    hide Claim1, Greeting;
    var s' := Claim1(s, h);
    ClaimEnds(s, h);
    ClaimShape(s, h);
    forall q | q in s'.attached ensures AttachedOk(q, s'.attached[q], s'.room, s'.severed, s'.wires, s'.ends.Keys) {
      assert AttachedOk(q, s.attached[q], s.room, s.severed, s.wires, s.ends.Keys);
    }
    forall d | d in s'.room.peers ensures MemberOk(d, s'.room.peers[d], s'.attached, s'.severed) {
      assert MemberOk(d, s.room.peers[d], s.attached, s.severed);
    }
  }

  lemma ClaimOpen(s: Sys, h: Socket)
    requires ClaimSetting(s, h) && OpenOk(s.ends, s.room)
    ensures var s' := Claim1(s, h); OpenOk(s'.ends, s'.room)
  {
    hide Claim1, Greeting;
    var s' := Claim1(s, h);
    ClaimEnds(s, h);
    ClaimShape(s, h);
    forall g | g in s'.ends ensures OpenFlows(s'.ends[g].flows, g, s'.room) {
      if g != h { assert OpenFlows(s.ends[g].flows, g, s.room); }
    }
  }

  lemma NewView(room: Room)
    requires forall c | c in room.peers :: c < room.nextConnId
    ensures ViewOk(NEW_LINK, Wire([], 0, Greeting(room.peers, room.nextConnId), 0), room)
    ensures room.peers.Keys <= Settle({}, Greeting(room.peers, room.nextConnId))
  {
    var greeting := Greeting(room.peers, room.nextConnId);
    GreetingIsDisciplined(room.peers, room.nextConnId, 0);
    assert greeting[0..] == greeting;
    assert (set c | c in room.peers && c < room.nextConnId) == room.peers.Keys;
    assert NEW_LINK.peers.Keys == {};
  }

  lemma ClaimTenure(s: Sys, h: Socket)
    requires ClaimSetting(s, h)
    ensures var s' := Claim1(s, h);
            && h in s'.ends && h in s'.wires && s'.room.host == h
            && TenureOk(s'.room, s'.ends[h].flows, s'.wires[h], s'.wires) && ViewOk(s'.ends[h].link, s'.wires[h], s'.room)
  {
    hide Claim1, Greeting, ViewOk, Settle;
    var s' := Claim1(s, h);
    ClaimEnds(s, h);
    ClaimShape(s, h);
    NewView(s.room);
    SameView(NEW_LINK, s'.wires[h], s.room, s'.room);
  }

  lemma ClaimKeeps(s: Sys, h: Socket)
    requires Inv(s) && Enabled(s, Claims(h))
    ensures Inv(Claim1(s, h))
  {
    hide HostOk, FlowsOk, HostsOk, OpenOk, ViewOk, TenureOk, Claim1;
    Basics(s);
    Members(s);
    assert ClaimSetting(s, h) by {
      assert forall a, b | a in s.room.peers && b in s.room.peers && s.room.peers[a] == s.room.peers[b] :: a == b;
      assert forall c | c in s.room.peers :: s.room.peers[c] != h;
    }
    ClaimHosts(s, h);
    ClaimSockets(s, h);
    ClaimOpen(s, h);
    ClaimTenure(s, h);
    ClaimShape(s, h);
  }

  // ----- the end of the room -----

  lemma EndShape(s: Sys)
    requires OneIdEach(s.room.peers) && forall c | c in s.room.peers :: c < s.room.nextConnId
    ensures var s' := End1(s);
            && s'.wires.Keys == s.wires.Keys
            && forall q | q in s.wires :: s'.wires[q] == s.wires[q].(down := s.wires[q].down + if q in s.room.peers.Values then [HostGone] else [])
  {
    hide TeardownNotices, SentTo, Below;
    var s' := End1(s);
    forall q | q in s.wires
      ensures s'.wires[q] == s.wires[q].(down := s.wires[q].down + if q in s.room.peers.Values then [HostGone] else [])
    {
      TeardownReaches(s.room.peers, s.room.nextConnId, q);
      BelowAll(s.room.peers, s.room.nextConnId, q);
    }
  }

  lemma GoneIsNoData(d: nat)
    ensures ToPeer([HostGone]) == [] && ToHost([HostGone], d) == []
  {
    PeerHistory([], HostGone);
    HostHistory([], HostGone, d);
    assert [] + [HostGone] == [HostGone];
  }

  lemma EndHosts(s: Sys)
    requires OneIdEach(s.room.peers) && forall c | c in s.room.peers :: c < s.room.nextConnId && s.room.peers[c] !in s.ends
    requires HostsOk(s.ends, s.wires, s.room.nextConnId)
    requires forall q | q in s.wires :: s.wires[q].taken <= |s.wires[q].up|
    ensures HostsOk(s.ends, End1(s).wires, s.room.nextConnId)
  {
    hide HostOk, FlowOk, End1;
    EndShape(s);
    var wires' := End1(s).wires;
    assert AllGrown(s.wires, wires');
    forall g | g in s.ends
      ensures g in wires' && HostOk(s.ends[g], wires'[g], s.room.nextConnId) && FlowsOk(s.ends[g].flows, g, wires', s.ends.Keys)
    {
      assert HostOk(s.ends[g], s.wires[g], s.room.nextConnId) && FlowsOk(s.ends[g].flows, g, s.wires, s.ends.Keys);
      assert s.wires[g].down + [] == s.wires[g].down && wires'[g] == s.wires[g];
      forall d | d in s.ends[g].flows ensures OneFlowOk(s.ends[g].flows[d], d, g, wires', s.ends.Keys) {
        NothingIsNothing(d);
        GoneIsNoData(d);
        FlowCarries(s.ends[g].flows[d], d, g, s.wires, wires', s.ends.Keys, s.ends.Keys);
      }
    }
  }

  lemma EndSockets(s: Sys)
    requires OneIdEach(s.room.peers) && forall c | c in s.room.peers :: c < s.room.nextConnId
    requires SocketsOk(s.room, s.over, s.attached, s.severed, s.wires, s.ends.Keys) && OpenOk(s.ends, s.room)
    ensures var s' := End1(s); SocketsOk(s'.room, s'.over, s'.attached, s'.severed, s'.wires, s'.ends.Keys) && OpenOk(s'.ends, s'.room)
  {
    var s' := End1(s);
    EndShape(s);
    Members(s);
    hide Applied, Teardown;
    OpenShrinks(s.ends, s.ends, s.room, s'.room);
    forall q | q in s'.attached ensures AttachedOk(q, s'.attached[q], s'.room, s'.severed, s'.wires, s'.ends.Keys) {
      assert AttachedOk(q, s.attached[q], s.room, s.severed, s.wires, s.ends.Keys);
    }
  }

  lemma EndKeeps(s: Sys)
    requires Inv(s) && Enabled(s, Ends)
    ensures Inv(End1(s))
  {
    hide HostOk, FlowsOk, HostsOk, OpenOk, ViewOk, Settle;
    Basics(s);
    Members(s);
    EndHosts(s);
    EndSockets(s);
  }
}
