/** What the multiplexer promises, in every state that any run of a room can reach. */
module MultiplexerTheorems {
  import opened Bytes
  import opened RelayWire
  import opened ClientWire
  import opened RelayRoom
  import opened RelayLink
  import opened Streams
  import opened Multiplexer
  import opened MultiplexerProof
  import opened HostSteps
  import opened ReadSteps
  import opened RelaySteps
  import opened ClaimSteps

  lemma NextKeepsInv(s: Sys, a: Action)
    requires Inv(s) && Enabled(s, a)
    ensures Inv(Next(s, a))
  {
    hide Inv, Join1, PeerFrame1, PeerClose1, HostSend1, HostKick1, HostFrame1, HostRead1, Claim1, End1, HostSignal1, PeerSend1, WithLink;
    match a
    case Joins(p) => JoinKeeps(s, p);
    case PeerSends(p, buf) => PeerSendKeeps(s, p, buf);
    case PeerFrame(p) => PeerFrameKeeps(s, p);
    case PeerCloses(p) => PeerCloseKeeps(s, p);
    case HostSends(h, i, payload) => HostSendKeeps(s, h, i, payload);
    case HostKicks(h, i) => HostKickKeeps(s, h, i);
    case HostSignals(h, handoff) => HostSignalKeeps(s, h, handoff);
    case HostFrame(now) => HostFrameKeeps(s, now);
    case HostReads(h) => HostReadKeeps(s, h);
    case HostListens(h) => HostHasWire(s, h); HostLinkKeeps(s, h, RelayLink.Wire(s.ends[h].link));
    case HostDrops(h, own) =>
      HostHasWire(s, h);
      HostLinkKeeps(s, h, if own then s.ends[h].link.(closed := true) else TearDown(s.ends[h].link));
    case Claims(h) => ClaimKeeps(s, h);
    case Ends => EndKeeps(s);
  }

  lemma HostHasWire(s: Sys, h: Socket)
    requires Inv(s) && h in s.ends
    ensures h in s.wires && HostOk(s.ends[h], s.wires[h], s.room.nextConnId) && FlowsOk(s.ends[h].flows, h, s.wires, s.ends.Keys)
  {
    hide HostOk, FlowsOk, OpenOk, TenureOk, ViewOk, SocketsOk;
  }

  ghost predicate Legal(s: Sys, run: seq<Action>)
    decreases |run|
  {
    run == [] || (Enabled(s, run[0]) && Legal(Next(s, run[0]), run[1..]))
  }

  ghost function After(s: Sys, run: seq<Action>): Sys
    requires Legal(s, run)
    decreases |run|
  {
    if run == [] then s else After(Next(s, run[0]), run[1..])
  }

  lemma {:induction false} RunKeepsInv(s: Sys, run: seq<Action>)
    requires Inv(s) && Legal(s, run)
    ensures Inv(After(s, run))
    decreases |run|
  {
    hide Inv, Enabled, Next;
    if run != [] {
      NextKeepsInv(s, run[0]);
      RunKeepsInv(Next(s, run[0]), run[1..]);
    }
  }

  lemma InitialInv(h: Socket)
    ensures Inv(Initial(h))
  {
    FirstGreeting(map[], 0);
    var w := Wire([], 0, [Ready(None)], 0);
    assert [Ready(None)][..0] == [] && w.down[0..] == [Ready(None)];
    assert HostOk(HostEnd(NEW_LINK, map[]), w, 1);
  }

  /** Some legal run of some room leads here. */
  ghost predicate Reached(s: Sys) {
    exists first, run :: Legal(Initial(first), run) && s == After(Initial(first), run)
  }

  lemma ReachedKeepsInv(s: Sys)
    requires Reached(s)
    ensures Inv(s)
  {
    var first, run :| Legal(Initial(first), run) && s == After(Initial(first), run);
    InitialInv(first);
    RunKeepsInv(Initial(first), run);
  }

  /** Transport i of host h has heard an unbroken slice of what the relay took, in the tenure, from the one socket behind its connId. */
  ghost predicate Upward(s: Sys, h: Socket, i: nat)
    requires h in s.ends && i < |s.ends[h].link.vts|
  {
    var vt, flows := s.ends[h].link.vts[i], s.ends[h].flows;
    && vt.connId in flows
    && (var f := flows[vt.connId];
        && f.owner in s.wires && f.base <= f.end <= s.wires[f.owner].taken <= |s.wires[f.owner].up|
        && (var sent := PeerSent(s.wires[f.owner].up[f.base..f.end]);
            && vt.missed + |vt.heard| <= |sent|
            && vt.heard == sent[vt.missed..vt.missed + |vt.heard|]
            && (vt.missed == 0 ==> vt.heard <= sent)))
  }

  lemma HeardIsSent(e: HostEnd, w: Wire, next: nat, i: nat, f: Flow, pw: Wire)
    requires HostOk(e, w, next) && i < |e.link.vts| && FlowOk(f, e.link.vts[i].connId, w, pw)
    ensures var vt := e.link.vts[i];
            var sent := PeerSent(pw.up[f.base..f.end]);
            vt.missed + |vt.heard| <= |sent| && vt.heard == sent[vt.missed..vt.missed + |vt.heard|]
    ensures e.link.vts[i].connId in e.flows
  {
    var vt := e.link.vts[i];
    IsAnnounced(e, w, next, i);
    assert w.down == w.down[..w.read] + w.down[w.read..];
    hide UpIds;
    ToHostConcat(w.down[..w.read], w.down[w.read..], vt.connId);
    assert EarOk(vt, ToHost(w.down[..w.read], vt.connId), Mapped(e.link, i));
  }

  lemma IsAnnounced(e: HostEnd, w: Wire, next: nat, i: nat)
    requires HostOk(e, w, next) && i < |e.link.vts|
    ensures e.link.vts[i].connId in UpIds(w.down) && e.link.vts[i].connId in e.flows
  {
    assert ConnIds(e.link.vts)[i] == e.link.vts[i].connId;
    assert w.down == w.down[..w.read] + w.down[w.read..];
    ToHostConcat(w.down[..w.read], w.down[w.read..], 0);
    assert e.link.vts[i].connId in UpIds(w.down[..w.read]);
  }

  /**
   * Peer to host. In every reachable state, for every host the room has had and every virtual
   * transport of its link: what the transport heard is, in order and with nothing added,
   * lost or taken from another peer, a slice of what the relay took from the one socket behind
   * that connId during the tenure; a prefix, once the transport has missed nothing. For a
   * member of the room with no handoff pending, that is everything taken since the tenure began.
   */
  lemma UpwardPipe(s: Sys, h: Socket, i: nat)
    requires Reached(s) && h in s.ends && i < |s.ends[h].link.vts|
    ensures Upward(s, h, i)
    ensures var c := s.ends[h].link.vts[i].connId;
            h == s.room.host && c in s.room.peers && s.room.deadline.None? ==>
              && c in s.ends[h].flows && s.room.peers[c] in s.wires
              && s.ends[h].flows[c].owner == s.room.peers[c] && s.ends[h].flows[c].end == s.wires[s.room.peers[c]].taken
  {
    hide Inv, HostOk, Reached, PeerSent, ToHost, UpIds;
    ReachedKeepsInv(s);
    HostHasWire(s, h);
    var e, c := s.ends[h], s.ends[h].link.vts[i].connId;
    IsAnnounced(e, s.wires[h], s.room.nextConnId, i);
    assert OneFlowOk(e.flows[c], c, h, s.wires, s.ends.Keys);
    if h == s.room.host && c in s.room.peers { MemberCounts(s, c); }
    HeardIsSent(e, s.wires[h], s.room.nextConnId, i, e.flows[c], s.wires[e.flows[c].owner]);
  }

  /**
   * Nothing is lost on the way up: once the relay has taken everything a member wrote and the host has read
   * everything it was sent, a transport that missed nothing has heard all the member sent in the tenure.
   */
  lemma EverythingArrives(s: Sys, i: nat)
    requires Reached(s)
    requires s.room.host in s.ends && i < |s.ends[s.room.host].link.vts|
    requires var l := s.ends[s.room.host].link;
             Mapped(l, i) && l.vts[i].missed == 0 && l.vts[i].connId in s.room.peers && s.room.deadline.None?
    requires s.room.host in s.wires && s.wires[s.room.host].read == |s.wires[s.room.host].down|
    ensures var c := s.ends[s.room.host].link.vts[i].connId;
            && c in s.ends[s.room.host].flows && s.room.peers[c] in s.wires
            && (var f, pw := s.ends[s.room.host].flows[c], s.wires[s.room.peers[c]];
                f.base <= pw.taken <= |pw.up| && s.ends[s.room.host].link.vts[i].heard == PeerSent(pw.up[f.base..pw.taken]))
  {
    hide Inv, HostOk, Reached, PeerSent, ToHost, UpIds;
    ReachedKeepsInv(s);
    var h := s.room.host;
    HostHasWire(s, h);
    var e, w, c := s.ends[h], s.wires[h], s.ends[h].link.vts[i].connId;
    IsAnnounced(e, w, s.room.nextConnId, i);
    assert OneFlowOk(e.flows[c], c, h, s.wires, s.ends.Keys);
    MemberCounts(s, c);
    MappedHeardAll(e, w, s.room.nextConnId, i);
    assert w.down[..w.read] == w.down;
  }

  lemma MappedHeardAll(e: HostEnd, w: Wire, next: nat, i: nat)
    requires HostOk(e, w, next) && i < |e.link.vts| && Mapped(e.link, i) && e.link.vts[i].missed == 0
    ensures w.read <= |w.down| && e.link.vts[i].heard == ToHost(w.down[..w.read], e.link.vts[i].connId)
  {
    assert EarOk(e.link.vts[i], ToHost(w.down[..w.read], e.link.vts[i].connId), Mapped(e.link, i));
  }

  lemma MemberCounts(s: Sys, c: nat)
    requires Inv(s) && c in s.room.peers
    ensures s.room.host in s.ends && s.room.host in s.wires && c in s.ends[s.room.host].flows && s.room.peers[c] in s.wires
    ensures Counting(s.ends[s.room.host].flows[c], s.room.peers[c], s.wires[s.room.peers[c]], s.wires[s.room.host], s.room.deadline.Some?)
  {
    Basics(s);
    hide HostOk, HostsOk, OpenOk, ViewOk, SocketsOk, Settle;
  }

  /**
   * Host to peer. In every reachable state, what the relay put on the peer's socket during the
   * tenure is exactly what it took from that host for the peer's connId, in order; for a member
   * of the room that is everything the relay has taken from the host.
   */
  lemma DownwardPipe(s: Sys, h: Socket, c: nat)
    requires Reached(s) && h in s.ends && c in s.ends[h].flows
    ensures var f := s.ends[h].flows[c];
            && f.owner in s.wires && h in s.wires
            && f.dbase <= FlowEnd(f, s.wires[f.owner]) <= |s.wires[f.owner].down| && f.uend <= |s.wires[h].up|
            && ToPeer(s.wires[f.owner].down[f.dbase..FlowEnd(f, s.wires[f.owner])]) == HostSent(s.wires[h].up[..f.uend], c)
            && (h == s.room.host && c in s.room.peers ==>
                  f.owner == s.room.peers[c] && f.dend.None? && f.uend == s.wires[h].taken)
  {
    ReachedKeepsInv(s);
    HostHasWire(s, h);
    assert OneFlowOk(s.ends[h].flows[c], c, h, s.wires, s.ends.Keys);
    if h == s.room.host && c in s.room.peers { MemberCounts(s, c); }
  }

  /** An honest sender's encoded frames are, to the relay, exactly the payloads it sent. */
  lemma {:induction false} EncodedIsSent(ps: seq<Payload>, c: U32)
    ensures PeerSent(seq(|ps|, i requires 0 <= i < |ps| => EncodeDataP(ps[i]))) == ps
    ensures HostSent(seq(|ps|, i requires 0 <= i < |ps| => EncodeDataH(c, ps[i])), c) == ps
  {
    if ps != [] {
      var before, last := ps[..|ps| - 1], ps[|ps| - 1];
      EncodedIsSent(before, c);
      var up := seq(|before|, i requires 0 <= i < |before| => EncodeDataP(before[i]));
      var uh := seq(|before|, i requires 0 <= i < |before| => EncodeDataH(c, before[i]));
      assert seq(|ps|, i requires 0 <= i < |ps| => EncodeDataP(ps[i])) == up + [EncodeDataP(last)];
      assert seq(|ps|, i requires 0 <= i < |ps| => EncodeDataH(c, ps[i])) == uh + [EncodeDataH(c, last)];
      PeerWrites(up, EncodeDataP(last));
      HostWrites(uh, EncodeDataH(c, last), c);
      PeerToHostHop(c, last);
      HostToPeerHop(c, last);
    }
  }

  /**
   * View agreement. In every reachable state of a live room whose host link is up, settling the
   * undelivered PEER_UPs and PEER_DOWNs onto the link's connIds gives the relay's connIds less
   * those with a kick in flight.
   */
  lemma ViewAgreement(s: Sys)
    requires Reached(s)
    ensures s.room.host in s.ends && s.room.host in s.wires
    ensures var l, w := s.ends[s.room.host].link, s.wires[s.room.host];
            && w.read <= |w.down| && w.taken <= |w.up|
            && (!s.over && !l.closed ==> Settle(l.peers.Keys, w.down[w.read..]) == s.room.peers.Keys - Kicked(w.up[w.taken..]))
  {
    ReachedKeepsInv(s);
    Basics(s);
    HostIsDisciplined(s.ends[s.room.host], s.wires[s.room.host], s.room.nextConnId);
    hide HostOk, HostsOk, OpenOk, SocketsOk, TenureOk, Settle, Kicked;
  }

  /** Host stream discipline, position by position, for every host the room has had. */
  lemma HostStreamDiscipline(s: Sys, h: Socket, i: nat, j: nat)
    requires Reached(s) && h in s.ends && h in s.wires && i < |s.wires[h].down| && j < |s.wires[h].down|
    ensures var d := s.wires[h].down;
            && (d[i].Ready? <==> i == 0)
            && (i != j && d[i].PeerUp? && d[j].PeerUp? ==> d[i].id != d[j].id)
            && (TagOf(d[i]).Some? ==>
                  exists k :: 0 <= k < i && d[k] == PeerUp(TagOf(d[i]).value.connId)
                              && forall m | k < m < i :: d[m] != PeerDown(TagOf(d[i]).value.connId))
  {
    ReachedKeepsInv(s);
    HostHasWire(s, h);
    HostIsDisciplined(s.ends[h], s.wires[h], s.room.nextConnId);
    hide HostOk, Inv;
    var d := s.wires[h].down;
    DisciplineByPosition(d, i, j);
    if TagOf(d[i]).Some? {
      var k := UpSince(d[..i], TagOf(d[i]).value.connId);
      assert d[..i][k] == d[k];
      forall m | k < m < i ensures d[m] != PeerDown(TagOf(d[i]).value.connId) {
        assert d[..i][m] == d[m];
      }
    }
  }

  lemma ReadyToClaim(s: Sys, h: Socket)
    requires Inv(s) && Enabled(s, Claims(h))
    ensures ClaimSetting(s, h)
  {
    hide HostOk, HostsOk, OpenOk, ViewOk, TenureOk;
    Members(s);
    assert forall c | c in s.room.peers :: s.room.peers[c] != h;
  }

  /** Across a claim nothing is renumbered: the new host is told of exactly the members, by their old connIds, and each member once of the claim. */
  lemma ClaimAnnouncesMembers(s: Sys, h: Socket)
    requires Reached(s) && Enabled(s, Claims(h))
    ensures var s' := Claim1(s, h);
            && s'.room.peers == s.room.peers && h in s'.wires
            && s'.wires[h].down == [Ready(None)] + Ups(Ascending(s.room.peers, s.room.nextConnId))
            && (forall q | q in s.wires && q in s'.wires ::
                  s'.wires[q].down == s.wires[q].down + if q in s.room.peers.Values then [HostClaimed] else [])
  {
    ReachedKeepsInv(s);
    ReadyToClaim(s, h);
    ClaimShape(s, h);
    hide Claim1, Inv;
  }

  /**
   * Why hypothesis S is needed, exactly: a KICK taken from a superseded host is obeyed by the
   * relay, which never tells the new host. The new host's view survives it if and only if the
   * connId was no longer counted as a member.
   */
  lemma StaleKickBreaksView(link: HostLink, w: Wire, room: Room, stale: Socket, c: U32, now: int)
    requires ViewOk(link, w, room) && !link.closed && stale != room.host
    ensures ViewOk(link, w, FromHost(room, stale, EncodeKick(c), now).room)
            <==> c !in room.peers || c in Kicked(w.up[w.taken..])
  {
    KickHop(c);
    var peers' := FromHost(room, stale, EncodeKick(c), now).room.peers;
    assert peers'.Keys == room.peers.Keys - {c};
    if c in room.peers && c !in Kicked(w.up[w.taken..]) {
      assert c in Settle(link.peers.Keys, w.down[w.read..]);
    }
  }

  /**
   * The other half of why S is needed: a data frame taken from a superseded host is forwarded. The socket and
   * the pipe of the member under c stay as they were if and only if the frame is for another connId; otherwise
   * the member hears data its host never sent.
   */
  lemma StaleDataBreaksPipe(room: Room, stale: Socket, d: U32, payload: Payload, now: int, f: Flow, c: nat, hw: Wire, pw: Wire)
    requires stale != room.host && c in room.peers && OneIdEach(room.peers)
    requires FlowOk(f, c, hw, pw) && f.dend.None?
    ensures var r := FromHost(room, stale, EncodeDataH(d, payload), now);
            var pw' := pw.(down := pw.down + SentTo(r.out, room.peers[c]));
            && r.room == room
            && (pw' == pw <==> d != c)
            && (FlowOk(f, c, hw, pw') <==> d != c)
  {
    hide FromHost, FlowOk, OneIdEach, SentTo;
    StaleDataReaches(room, stale, d, payload, now, c);
    if d == c {
      ForeignFrame(f, c, hw, pw, payload);
      assert |pw.down + [Raw(DataToPeer(payload))]| != |pw.down|;
    } else {
      assert pw.down + [] == pw.down;
    }
  }

  lemma StaleDataReaches(room: Room, stale: Socket, d: U32, payload: Payload, now: int, c: nat)
    requires stale != room.host && c in room.peers && OneIdEach(room.peers)
    ensures var r := FromHost(room, stale, EncodeDataH(d, payload), now);
            r.room == room && SentTo(r.out, room.peers[c]) == if d == c then [Raw(DataToPeer(payload))] else []
  {
    hide SentTo, OneIdEach, DecodeDataFromHost, EncodeDataH;
    HostToPeerHop(d, payload);
    OtherSocket(room.peers, c, d);
    assert SentTo([], room.peers[c]) == [] by { NobodyBelow(room.peers, room.peers[c]); }
    if d in room.peers { SentOne(Send(room.peers[d], Raw(DataToPeer(payload))), room.peers[c]); }
  }

  /** One payload more on the peer's side than its host sent, and the pipe is broken. */
  lemma ForeignFrame(f: Flow, c: nat, hw: Wire, pw: Wire, payload: Payload)
    requires FlowOk(f, c, hw, pw) && f.dend.None?
    ensures !FlowOk(f, c, hw, pw.(down := pw.down + [Raw(DataToPeer(payload))]))
  {
    hide ToPeer, ToHost, HostSent, PeerSent;
    var frame := Raw(DataToPeer(payload));
    HostToPeerHop(0, payload);
    PeerHistory([], frame);
    NothingIsNothing(0);
    assert [] + [frame] == [frame];
    OneMoreToPeer(pw.down, f.dbase, [frame]);
    assert |ToPeer((pw.down + [frame])[f.dbase..|pw.down + [frame]|])| == |HostSent(hw.up[..f.uend], c)| + 1;
  }

  lemma OtherSocket(peers: map<nat, Socket>, c: nat, d: nat)
    requires OneIdEach(peers) && c in peers
    ensures d in peers && d != c ==> peers[d] != peers[c]
  {
  }

  /**
   * Any frame at all from a superseded host: it changes nothing and reaches nobody if and only if it neither
   * kicks a member nor carries data for one. A HANDOFF in particular never does harm.
   */
  lemma StaleFrameIsHarmlessExactlyWhen(room: Room, stale: Socket, buf: Buffer, now: int)
    requires stale != room.host
    ensures FromHost(room, stale, buf, now) == Result(room, [])
            <==> !(DecodeKick(buf).Some? && DecodeKick(buf).value in room.peers)
                 && !(DecodeDataFromHost(buf).Some? && DecodeDataFromHost(buf).value.connId in room.peers)
    ensures FromHost(room, stale, EncodeHandoff(), now) == Result(room, [])
  {
    if DecodeKick(buf).Some? && DecodeKick(buf).value in room.peers {
      assert DecodeKick(buf).value !in FromHost(room, stale, buf, now).room.peers;
    }
  }

  /**
   * In every reachable state the guards of the steps are the hypotheses and no more: (E) for the peer frames,
   * (S) in that only the current host's frames are taken, a fresh socket for a join or a claim, and connIds
   * that still fit.
   */
  lemma GuardsAreHypotheses(s: Sys, p: Socket, now: int)
    requires Reached(s)
    ensures s.room.host in s.wires
    ensures Enabled(s, Joins(p)) <==> !s.over && p !in s.wires && s.room.nextConnId < CONN_ID_LIMIT
    ensures Enabled(s, PeerFrame(p)) <==>
              !s.over && p in s.attached && p !in s.severed && p in s.wires && s.wires[p].taken < |s.wires[p].up|
    ensures Enabled(s, HostFrame(now)) <==> !s.over && s.wires[s.room.host].taken < |s.wires[s.room.host].up|
    ensures Enabled(s, HostReads(p)) <==> p in s.ends && p in s.wires && s.wires[p].read < |s.wires[p].down|
    ensures Enabled(s, Claims(p)) <==> !s.over && p !in s.wires && s.room.deadline.Some?
  {
    hide Reached, Inv, HostOk, FlowsOk, Counting;
    ReachedKeepsInv(s);
    Basics(s);
    Members(s);
    if p in s.attached && p !in s.severed { PeerIsMember(s, p); }
    if p in s.ends { LinkIndexes(s, p); }
  }

  lemma PeerIsMember(s: Sys, p: Socket)
    requires Inv(s) && p in s.attached && p !in s.severed
    ensures s.room.host in s.ends && s.attached[p] in s.ends[s.room.host].flows
  {
    Basics(s);
    assert AttachedOk(p, s.attached[p], s.room, s.severed, s.wires, s.ends.Keys);
    MemberCounts(s, s.attached[p]);
  }

  lemma LinkIndexes(s: Sys, h: Socket)
    requires Inv(s) && h in s.ends
    ensures forall c | c in s.ends[h].link.peers :: s.ends[h].link.peers[c] < |s.ends[h].link.vts|
  {
    HostHasWire(s, h);
    assert LinkInv(s.ends[h].link);
  }
}
