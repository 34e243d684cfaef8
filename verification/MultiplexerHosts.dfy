/** The steps of a host's own link: what it writes, reads, wires and drops. */
module HostSteps {
  import opened Bytes
  import opened RelayWire
  import opened ClientWire
  import opened RelayRoom
  import opened RelayLink
  import opened Streams
  import opened Multiplexer
  import opened MultiplexerProof

  /** Every step of a link that reads nothing: it may change the link and write at most one frame. */
  function Wrote(s: Sys, h: Socket, frames: seq<Buffer>, link: HostLink): Sys
    requires h in s.ends && h in s.wires
  {
    s.(wires := Written(s.wires, h, frames), ends := s.ends[h := s.ends[h].(link := link)])
  }

  /** The frames are about connIds the host has read of. */
  ghost predicate Addressed(frames: seq<Buffer>, w: Wire) {
    w.read <= |w.down| && |frames| <= 1 &&
    forall c | frames != [] && (c in KickOf(frames[0]) || HostSays(frames[0], c) != []) :: c in UpIds(w.down[..w.read])
  }

  lemma WroteHost(e: HostEnd, w: Wire, frames: seq<Buffer>, next: nat)
    requires HostOk(e, w, next) && Addressed(frames, w)
    ensures HostOk(e, w.(up := w.up + frames), next)
  {
    if frames == [] {
      assert w.up + [] == w.up;
    } else {
      hide HostOk;
      assert frames == [frames[0]];
      HostUpGrows(e, w, frames[0], next);
    }
  }

  lemma WroteHosts(s: Sys, h: Socket, frames: seq<Buffer>, link: HostLink)
    requires h in s.ends && h in s.wires && HostsOk(s.ends, s.wires, s.room.nextConnId) && Addressed(frames, s.wires[h])
    requires forall q | q in s.wires :: s.wires[q].taken <= |s.wires[q].up|
    requires HostOk(s.ends[h].(link := link), s.wires[h], s.room.nextConnId)
    ensures var s' := Wrote(s, h, frames, link); HostsOk(s'.ends, s'.wires, s'.room.nextConnId)
  {
    hide HostOk, FlowOk;
    var s' := Wrote(s, h, frames, link);
    WroteHost(s.ends[h].(link := link), s.wires[h], frames, s.room.nextConnId);
    assert AllGrown(s.wires, s'.wires);
    assert s'.ends.Keys == s.ends.Keys;
    forall g | g in s'.ends
      ensures g in s'.wires && HostOk(s'.ends[g], s'.wires[g], s'.room.nextConnId) && FlowsOk(s'.ends[g].flows, g, s'.wires, s'.ends.Keys)
    {
      assert HostOk(s.ends[g], s.wires[g], s.room.nextConnId) && FlowsOk(s.ends[g].flows, g, s.wires, s.ends.Keys);
      forall d | d in s.ends[g].flows ensures OneFlowOk(s.ends[g].flows[d], d, g, s'.wires, s'.ends.Keys) {
        NothingIsNothing(d);
        FlowCarries(s.ends[g].flows[d], d, g, s.wires, s'.wires, s.ends.Keys, s'.ends.Keys);
      }
    }
  }

  lemma WroteRest(s: Sys, h: Socket, frames: seq<Buffer>, link: HostLink)
    requires h in s.ends && h in s.wires && s.room.host in s.ends && s.room.host in s.wires
    requires SocketsOk(s.room, s.over, s.attached, s.severed, s.wires, s.ends.Keys) && OpenOk(s.ends, s.room)
    requires TenureOk(s.room, s.ends[s.room.host].flows, s.wires[s.room.host], s.wires)
    ensures var s' := Wrote(s, h, frames, link);
            && SocketsOk(s'.room, s'.over, s'.attached, s'.severed, s'.wires, s'.ends.Keys) && OpenOk(s'.ends, s'.room)
            && TenureOk(s'.room, s'.ends[s'.room.host].flows, s'.wires[s'.room.host], s'.wires)
  {
    var s' := Wrote(s, h, frames, link);
    assert s'.ends.Keys == s.ends.Keys;
    SameOpen(s.ends, s'.ends, s.room, s'.room);
    forall q | q in s'.attached ensures AttachedOk(q, s'.attached[q], s'.room, s'.severed, s'.wires, s'.ends.Keys) {
      assert AttachedOk(q, s.attached[q], s.room, s.severed, s.wires, s.ends.Keys);
    }
    forall c | c in s.room.peers
      ensures s.room.peers[c] in s'.wires
              && Counting(s'.ends[s.room.host].flows[c], s.room.peers[c], s'.wires[s.room.peers[c]], s'.wires[s.room.host], s.room.deadline.Some?)
    {
      assert Counting(s.ends[s.room.host].flows[c], s.room.peers[c], s.wires[s.room.peers[c]], s.wires[s.room.host], s.room.deadline.Some?);
    }
  }

  lemma WroteKeeps(s: Sys, h: Socket, frames: seq<Buffer>, link: HostLink)
    requires Inv(s) && h in s.ends && h in s.wires && Addressed(frames, s.wires[h])
    requires HostOk(s.ends[h].(link := link), s.wires[h], s.room.nextConnId)
    requires !s.over && h == s.room.host ==> ViewOk(link, s.wires[h].(up := s.wires[h].up + frames), s.room)
    ensures Inv(Wrote(s, h, frames, link))
  {
    hide HostOk, FlowsOk, HostsOk, OpenOk, ViewOk, TenureOk, Addressed;
    Basics(s);
    WroteHosts(s, h, frames, link);
    WroteRest(s, h, frames, link);
  }

  /** A frame that kicks nobody leaves the view as it is. */
  lemma NoKickView(link: HostLink, w: Wire, room: Room, frames: seq<Buffer>)
    requires ViewOk(link, w, room) && |frames| <= 1 && (frames != [] ==> KickOf(frames[0]) == [])
    ensures ViewOk(link, w.(up := w.up + frames), room)
  {
    if frames == [] {
      assert w.up + [] == w.up;
    } else {
      assert frames == [frames[0]];
      assert (w.up + frames)[w.taken..] == w.up[w.taken..] + [frames[0]];
      HostWrites(w.up[w.taken..], frames[0], 0);
    }
  }

  lemma SendIsAddressed(e: HostEnd, w: Wire, next: nat, i: nat, payload: Payload)
    requires HostOk(e, w, next) && i < |e.link.vts|
    ensures Addressed(Transmit(e.link, i, payload), w)
    ensures Transmit(e.link, i, payload) != [] ==> KickOf(Transmit(e.link, i, payload)[0]) == []
  {
    var c := e.link.vts[i].connId;
    assert ConnIds(e.link.vts)[i] == c;
    if c < CONN_ID_LIMIT { HostToPeerHop(c, payload); }
  }

  lemma SameEnds(ends: map<Socket, HostEnd>, h: Socket)
    requires h in ends
    ensures ends[h := ends[h].(link := ends[h].link)] == ends
  {
  }

  lemma SendIsWrote(s: Sys, h: Socket, i: nat, payload: Payload)
    requires Enabled(s, HostSends(h, i, payload))
    ensures HostSend1(s, h, i, payload) == Wrote(s, h, Transmit(s.ends[h].link, i, payload), s.ends[h].link)
  {
    SameEnds(s.ends, h);
  }

  lemma SignalIsWrote(s: Sys, h: Socket, handoff: bool)
    requires Enabled(s, HostSignals(h, handoff))
    ensures HostSignal1(s, h, handoff) == Wrote(s, h, [if handoff then EncodeHandoff() else EncodePing()], s.ends[h].link)
  {
    SameEnds(s.ends, h);
  }

  lemma LinkIsWrote(s: Sys, h: Socket, link: HostLink)
    requires h in s.ends && h in s.wires
    ensures WithLink(s, h, link) == Wrote(s, h, [], link)
  {
    assert s.wires[h].up + [] == s.wires[h].up;
    assert Written(s.wires, h, []) == s.wires;
  }

  lemma HostSendKeeps(s: Sys, h: Socket, i: nat, payload: Payload)
    requires Inv(s) && Enabled(s, HostSends(h, i, payload))
    ensures Inv(HostSend1(s, h, i, payload))
  {
    hide FlowsOk, OpenOk, ViewOk, TenureOk, SocketsOk;
    var frames := Transmit(s.ends[h].link, i, payload);
    assert HostOk(s.ends[h], s.wires[h], s.room.nextConnId);
    hide HostOk, HostsOk;
    SendIsAddressed(s.ends[h], s.wires[h], s.room.nextConnId, i, payload);
    if !s.over && h == s.room.host { NoKickView(s.ends[h].link, s.wires[h], s.room, frames); }
    WroteKeeps(s, h, frames, s.ends[h].link);
    hide Inv;
    SendIsWrote(s, h, i, payload);
  }

  lemma SignalIsQuiet(w: Wire, handoff: bool)
    requires w.read <= |w.down|
    ensures var f := if handoff then EncodeHandoff() else EncodePing(); KickOf(f) == [] && Addressed([f], w)
  {
  }

  lemma HostSignalKeeps(s: Sys, h: Socket, handoff: bool)
    requires Inv(s) && Enabled(s, HostSignals(h, handoff))
    ensures Inv(HostSignal1(s, h, handoff))
  {
    hide FlowsOk, OpenOk, ViewOk, TenureOk, SocketsOk;
    assert HostOk(s.ends[h], s.wires[h], s.room.nextConnId);
    hide HostOk, HostsOk, Addressed, KickOf;
    HostIsDisciplined(s.ends[h], s.wires[h], s.room.nextConnId);
    var frames := [if handoff then EncodeHandoff() else EncodePing()];
    SignalIsQuiet(s.wires[h], handoff);
    if !s.over && h == s.room.host { NoKickView(s.ends[h].link, s.wires[h], s.room, frames); }
    WroteKeeps(s, h, frames, s.ends[h].link);
    hide Inv;
    SignalIsWrote(s, h, handoff);
  }

  // ----- kicking, wiring, dropping -----

  lemma KickEars(l: HostLink, i: nat, j: nat, data: seq<Payload>)
    requires i < |l.vts| && j < |l.vts| && EarOk(l.vts[j], data, Mapped(l, j))
    ensures var l' := Kick(l, i).link;
            |l'.vts| == |l.vts| && l'.vts[j].connId == l.vts[j].connId && EarOk(l'.vts[j], data, Mapped(l', j))
  {
  }

  lemma KickFrames(l: HostLink, i: nat, c: nat)
    requires i < |l.vts| && Kick(l, i).frames != []
    ensures |Kick(l, i).frames| == 1 && (c in KickOf(Kick(l, i).frames[0]) <==> c == l.vts[i].connId)
    ensures HostSays(Kick(l, i).frames[0], c) == []
    ensures Kick(l, i).frames == [EncodeKick(l.vts[i].connId)]
  {
    KickHop(l.vts[i].connId);
  }

  lemma KickHost(e: HostEnd, w: Wire, next: nat, i: nat)
    requires HostOk(e, w, next) && i < |e.link.vts|
    ensures HostOk(e.(link := Kick(e.link, i).link), w, next) && Addressed(Kick(e.link, i).frames, w)
  {
    var l, k := e.link, Kick(e.link, i);
    KickKeepsInv(l, i);
    assert ConnIds(l.vts)[i] == l.vts[i].connId;
    forall c | k.frames != [] && (c in KickOf(k.frames[0]) || HostSays(k.frames[0], c) != []) ensures c in UpIds(w.down[..w.read]) {
      KickFrames(l, i, c);
    }
    assert |k.frames| <= 1;
    hide Kick, EarOk, LinkInv;
    forall j | 0 <= j < |l.vts|
      ensures |k.link.vts| == |l.vts| && k.link.vts[j].connId == l.vts[j].connId
              && EarOk(k.link.vts[j], ToHost(w.down[..w.read], k.link.vts[j].connId), Mapped(k.link, j))
    {
      KickEars(l, i, j, ToHost(w.down[..w.read], l.vts[j].connId));
    }
    KickSameSize(l, i);
    assert ConnIds(k.link.vts) == ConnIds(l.vts);
  }

  lemma KickSameSize(l: HostLink, i: nat)
    requires i < |l.vts|
    ensures |Kick(l, i).link.vts| == |l.vts| && (Kick(l, i).link.closed <==> l.closed)
    ensures !l.vts[i].closed ==> Kick(l, i).link.peers.Keys == l.peers.Keys - {l.vts[i].connId}
    ensures l.vts[i].closed ==> Kick(l, i) == Sent(l, [])
    ensures !l.vts[i].closed && !l.closed && l.vts[i].connId < CONN_ID_LIMIT ==> Kick(l, i).frames != []
  {
  }

  /** A connId the host has read of is not announced again further down. */
  lemma NotAnnouncedAgain(h: seq<Down>, r: nat, c: nat)
    requires Disciplined(h) && r <= |h| && c in UpIds(h[..r])
    ensures c !in UpIds(h[r..])
  {
    hide Disciplined, UpIds, ToHost;
    assert h == h[..r] + h[r..];
    ToHostConcat(h[..r], h[r..], 0);
    DistinctIds(h);
    var a, b := UpIds(h[..r]), UpIds(h[r..]);
    var i :| 0 <= i < |a| && a[i] == c;
    forall j | 0 <= j < |b| ensures b[j] != c {
      assert UpIds(h)[i] == c && UpIds(h)[|a| + j] == b[j];
    }
  }

  /** A kick takes its connId out of the host's map and puts it among the kicks in flight. */
  lemma KickBalances(up: set<nat>, frames: seq<Down>, kicks: seq<Buffer>, c: nat, members: set<nat>)
    requires c < CONN_ID_LIMIT && c !in UpIds(frames)
    requires Settle(up, frames) == members - Kicked(kicks)
    ensures Settle(up - {c}, frames) == members - Kicked(kicks + [EncodeKick(c)])
  {
    KickHop(c);
    HostWrites(kicks, EncodeKick(c), 0);
    SettleForgets(up, frames, c);
    assert Kicked(kicks + [EncodeKick(c)]) == Kicked(kicks) + {c};
  }

  lemma ReadIsAnnounced(e: HostEnd, w: Wire, next: nat, i: nat)
    requires HostOk(e, w, next) && i < |e.link.vts|
    ensures e.link.vts[i].connId < CONN_ID_LIMIT && e.link.vts[i].connId !in UpIds(w.down[w.read..])
  {
    var c := e.link.vts[i].connId;
    assert ConnIds(e.link.vts)[i] == c;
    assert c in UpIds(w.down[..w.read]);
    NotAnnouncedAgain(w.down, w.read, c);
    assert w.down == w.down[..w.read] + w.down[w.read..];
    ToHostConcat(w.down[..w.read], w.down[w.read..], 0);
    assert c in UpIds(w.down);
  }

  lemma KickView(e: HostEnd, w: Wire, next: nat, room: Room, i: nat)
    requires HostOk(e, w, next) && ViewOk(e.link, w, room) && i < |e.link.vts|
    ensures ViewOk(Kick(e.link, i).link, w.(up := w.up + Kick(e.link, i).frames), room)
  {
    var l, k := e.link, Kick(e.link, i);
    var c := l.vts[i].connId;
    ReadIsAnnounced(e, w, next, i);
    hide HostOk, Kick, Settle, Kicked, UpIds;
    KickSameSize(l, i);
    if !l.closed && !l.vts[i].closed {
      KickFrames(l, i, c);
      assert (w.up + k.frames)[w.taken..] == w.up[w.taken..] + [EncodeKick(c)];
      KickBalances(l.peers.Keys, w.down[w.read..], w.up[w.taken..], c, room.peers.Keys);
    } else if l.vts[i].closed {
      assert w.up + [] == w.up;
    }
  }

  lemma HostKickKeeps(s: Sys, h: Socket, i: nat)
    requires Inv(s) && Enabled(s, HostKicks(h, i))
    ensures Inv(HostKick1(s, h, i))
  {
    hide FlowsOk, OpenOk, ViewOk, TenureOk, SocketsOk;
    assert HostOk(s.ends[h], s.wires[h], s.room.nextConnId);
    hide HostOk, HostsOk, Kick;
    KickHost(s.ends[h], s.wires[h], s.room.nextConnId, i);
    if !s.over && h == s.room.host { KickView(s.ends[h], s.wires[h], s.room.nextConnId, s.room, i); }
    WroteKeeps(s, h, Kick(s.ends[h].link, i).frames, Kick(s.ends[h].link, i).link);
  }

  lemma WireHost(e: HostEnd, w: Wire, next: nat)
    requires HostOk(e, w, next)
    ensures HostOk(e.(link := RelayLink.Wire(e.link)), w, next)
  {
    var l, l' := e.link, RelayLink.Wire(e.link);
    WireKeepsInv(l);
    assert ConnIds(l'.vts) == ConnIds(l.vts);
    forall j | 0 <= j < |l'.vts|
      ensures EarOk(l'.vts[j], ToHost(w.down[..w.read], l'.vts[j].connId), Mapped(l', j))
    {
      assert EarOk(l.vts[j], ToHost(w.down[..w.read], l.vts[j].connId), Mapped(l, j));
    }
  }

  lemma DropHost(e: HostEnd, w: Wire, next: nat, own: bool)
    requires HostOk(e, w, next)
    ensures HostOk(e.(link := if own then e.link.(closed := true) else TearDown(e.link)), w, next)
  {
    hide ToHost, UpIds, KickIds, HostSent, Disciplined;
    var l := e.link;
    var l' := if own then l.(closed := true) else TearDown(l);
    TearDownKeepsInv(l);
    assert ConnIds(l'.vts) == ConnIds(l.vts);
    forall j | 0 <= j < |l'.vts|
      ensures EarOk(l'.vts[j], ToHost(w.down[..w.read], l'.vts[j].connId), Mapped(l', j))
    {
      assert EarOk(l.vts[j], ToHost(w.down[..w.read], l.vts[j].connId), Mapped(l, j));
    }
  }

  /** A link that is closed has no view to agree with; one that only gets wired keeps its own. */
  lemma SameOrNoView(link: HostLink, link': HostLink, w: Wire, room: Room)
    requires ViewOk(link, w, room) && (link'.closed || (link'.peers == link.peers && !link.closed))
    ensures ViewOk(link', w.(up := w.up + []), room)
  {
    assert w.up + [] == w.up;
  }

  lemma HostLinkKeeps(s: Sys, h: Socket, link: HostLink)
    requires Inv(s) && h in s.ends && h in s.wires
    requires link == RelayLink.Wire(s.ends[h].link) || link == s.ends[h].link.(closed := true) || link == TearDown(s.ends[h].link)
    ensures Inv(WithLink(s, h, link))
  {
    hide FlowsOk, OpenOk, ViewOk, TenureOk, SocketsOk;
    var l := s.ends[h].link;
    assert HostOk(s.ends[h], s.wires[h], s.room.nextConnId);
    HostIsDisciplined(s.ends[h], s.wires[h], s.room.nextConnId);
    hide HostOk, HostsOk;
    WireHost(s.ends[h], s.wires[h], s.room.nextConnId);
    DropHost(s.ends[h], s.wires[h], s.room.nextConnId, true);
    DropHost(s.ends[h], s.wires[h], s.room.nextConnId, false);
    if !s.over && h == s.room.host { SameOrNoView(l, link, s.wires[h], s.room); }
    WroteKeeps(s, h, [], link);
    hide Inv;
    LinkIsWrote(s, h, link);
  }
}
