/** The step in which a host's link reads the next frame the relay sent it. */
module ReadSteps {
  import opened Bytes
  import opened RelayWire
  import opened ClientWire
  import opened RelayRoom
  import opened RelayLink
  import opened Streams
  import opened Multiplexer
  import opened MultiplexerProof
  import opened HostSteps

  ghost predicate OneEach(vts: seq<VirtualTransport>) {
    forall i, j | 0 <= i < j < |vts| :: vts[i].connId != vts[j].connId
  }

  lemma DataEar(l: HostLink, frame: Buffer, j: nat, data: seq<Payload>)
    requires LinkInv(l) && OneEach(l.vts) && j < |l.vts| && EarOk(l.vts[j], data, Mapped(l, j))
    ensures var l', c := OnFrame(l, Raw(frame)), l.vts[j].connId;
            |l'.vts| == |l.vts| && l'.vts[j].connId == c && EarOk(l'.vts[j], data + HostHears(Raw(frame), c), Mapped(l', j))
  {
    var vt := l.vts[j];
    var more := data + HostHears(Raw(frame), vt.connId);
    assert more[vt.missed..vt.missed + |vt.heard|] == data[vt.missed..vt.missed + |vt.heard|];
    if TagOf(Raw(frame)).Some? && TagOf(Raw(frame)).value.connId in l.peers {
      var i := l.peers[TagOf(Raw(frame)).value.connId];
      assert l.vts[i].connId == TagOf(Raw(frame)).value.connId;
      if i == j {
        assert more[vt.missed..] == data[vt.missed..] + HostHears(Raw(frame), vt.connId);
      }
    }
  }

  lemma OldEar(l: HostLink, m: Down, j: nat, data: seq<Payload>)
    requires LinkInv(l) && OneEach(l.vts) && j < |l.vts| && EarOk(l.vts[j], data, Mapped(l, j))
    requires m.PeerUp? ==> m.id != l.vts[j].connId
    ensures var l', c := OnFrame(l, m), l.vts[j].connId;
            |l'.vts| >= |l.vts| && l'.vts[j].connId == c && EarOk(l'.vts[j], data + HostHears(m, c), Mapped(l', j))
  {
    if m.Raw? {
      DataEar(l, m.frame, j, data);
    } else {
      assert data + [] == data;
    }
  }

  lemma ReadIds(l: HostLink, m: Down, h: seq<Down>)
    requires LinkInv(l) && ConnIds(l.vts) == UpIds(h) && Disciplined(h + [m])
    ensures ConnIds(OnFrame(l, m).vts) == UpIds(h + [m])
    ensures OneEach(l.vts) && (m.PeerUp? ==> forall j | 0 <= j < |l.vts| :: m.id != l.vts[j].connId)
  {
    StepAddsArrival(l, Frame(m));
    HostHistory(h, m, 0);
    assert (h + [m])[..|h|] == h;
    DistinctIds(h);
    forall i, j | 0 <= i < j < |l.vts| ensures l.vts[i].connId != l.vts[j].connId {
      assert ConnIds(l.vts)[i] != ConnIds(l.vts)[j];
    }
    forall j | m.PeerUp? && 0 <= j < |l.vts| ensures m.id != l.vts[j].connId {
      assert ConnIds(l.vts)[j] in UpIds(h);
    }
  }

  lemma ReadEars(l: HostLink, m: Down, h: seq<Down>)
    requires LinkInv(l) && ConnIds(l.vts) == UpIds(h) && Disciplined(h + [m])
    requires forall j | 0 <= j < |l.vts| :: EarOk(l.vts[j], ToHost(h, l.vts[j].connId), Mapped(l, j))
    ensures var l' := OnFrame(l, m);
            forall j | 0 <= j < |l'.vts| :: EarOk(l'.vts[j], ToHost(h + [m], l'.vts[j].connId), Mapped(l', j))
  {
    var l' := OnFrame(l, m);
    ReadIds(l, m, h);
    forall j | 0 <= j < |l'.vts| ensures EarOk(l'.vts[j], ToHost(h + [m], l'.vts[j].connId), Mapped(l', j)) {
      HostHistory(h, m, l'.vts[j].connId);
      if j < |l.vts| {
        OldEar(l, m, j, ToHost(h, l.vts[j].connId));
      } else {
        assert (h + [m])[..|h|] == h;
        SilentUntilAnnounced(h, m.id);
      }
    }
  }

  lemma ReadHost(e: HostEnd, w: Wire, next: nat)
    requires HostOk(e, w, next) && w.read < |w.down|
    ensures HostOk(e.(link := OnFrame(e.link, w.down[w.read])), w.(read := w.read + 1), next)
  {
    var m, h := w.down[w.read], w.down[..w.read];
    assert w.down[..w.read + 1] == h + [m];
    DisciplinedPrefix(w.down, w.read + 1);
    assert (h + [m])[..|h|] == h;
    HostHistory(h, m, 0);
    hide LinkInv, EarOk, Disciplined, OnFrame;
    ReadIds(e.link, m, h);
    ReadEars(e.link, m, h);
    OnFrameKeepsInv(e.link, m);
  }

  lemma ReadView(link: HostLink, w: Wire, room: Room)
    requires ViewOk(link, w, room) && w.read < |w.down| && LinkInv(link)
    ensures ViewOk(OnFrame(link, w.down[w.read]), w.(read := w.read + 1), room)
  {
    SettleHead(link.peers.Keys, w.down[w.read..]);
    assert w.down[w.read..][1..] == w.down[w.read + 1..];
    assert OnFrame(link, w.down[w.read]).peers.Keys == SettleOne(link.peers.Keys, w.down[w.read]);
  }

  lemma ReadHosts(s: Sys, h: Socket)
    requires Enabled(s, HostReads(h)) && HostsOk(s.ends, s.wires, s.room.nextConnId)
    requires forall q | q in s.wires :: s.wires[q].taken <= |s.wires[q].up|
    ensures var s' := HostRead1(s, h); HostsOk(s'.ends, s'.wires, s'.room.nextConnId)
  {
    hide HostOk, FlowOk;
    var s' := HostRead1(s, h);
    ReadHost(s.ends[h], s.wires[h], s.room.nextConnId);
    hide OnFrame;
    assert AllGrown(s.wires, s'.wires);
    assert s'.ends.Keys == s.ends.Keys;
    forall g | g in s'.ends
      ensures g in s'.wires && HostOk(s'.ends[g], s'.wires[g], s'.room.nextConnId) && FlowsOk(s'.ends[g].flows, g, s'.wires, s'.ends.Keys)
    {
      assert HostOk(s.ends[g], s.wires[g], s.room.nextConnId) && FlowsOk(s.ends[g].flows, g, s.wires, s.ends.Keys);
      forall d | d in s.ends[g].flows ensures OneFlowOk(s.ends[g].flows[d], d, g, s'.wires, s'.ends.Keys) {
        NothingIsNothing(d);
        FlowCarries(s.ends[g].flows[d], d, g, s.wires, s'.wires, s.ends.Keys, s'.ends.Keys);
      }
    }
  }

  lemma ReadRest(s: Sys, h: Socket)
    requires Enabled(s, HostReads(h)) && s.room.host in s.ends && s.room.host in s.wires
    requires SocketsOk(s.room, s.over, s.attached, s.severed, s.wires, s.ends.Keys) && OpenOk(s.ends, s.room)
    requires TenureOk(s.room, s.ends[s.room.host].flows, s.wires[s.room.host], s.wires)
    ensures var s' := HostRead1(s, h);
            && SocketsOk(s'.room, s'.over, s'.attached, s'.severed, s'.wires, s'.ends.Keys) && OpenOk(s'.ends, s'.room)
            && TenureOk(s'.room, s'.ends[s'.room.host].flows, s'.wires[s'.room.host], s'.wires)
  {
    hide OnFrame, Settle, OpenFlows;
    var s' := HostRead1(s, h);
    assert s'.ends.Keys == s.ends.Keys;
    SameOpen(s.ends, s'.ends, s.room, s'.room);
    forall q | q in s'.attached ensures AttachedOk(q, s'.attached[q], s'.room, s'.severed, s'.wires, s'.ends.Keys) {
      assert AttachedOk(q, s.attached[q], s.room, s.severed, s.wires, s.ends.Keys);
    }
    forall c | c in s.room.peers
      ensures s.room.peers[c] in s'.wires
              && Counting(s'.ends[s.room.host].flows[c], s.room.peers[c], s'.wires[s.room.peers[c]], s'.wires[s.room.host], s.room.deadline.Some?)
    {
      assert Counting(s.ends[s.room.host].flows[c], s.room.peers[c], s.wires[s.room.peers[c]], s.wires[s.room.host], s.room.deadline.Some?);
    }
  }

  lemma HostReadKeeps(s: Sys, h: Socket)
    requires Inv(s) && Enabled(s, HostReads(h))
    ensures Inv(HostRead1(s, h))
  {
    hide HostOk, FlowsOk, HostsOk, OpenOk, ViewOk, TenureOk, OnFrame;
    Basics(s);
    ReadHosts(s, h);
    ReadRest(s, h);
    if !s.over && h == s.room.host {
      HostIsDisciplined(s.ends[h], s.wires[h], s.room.nextConnId);
      ReadView(s.ends[h].link, s.wires[h], s.room);
    }
  }
}
