/**
 * One room incarnation end to end: every peer's socket, the relay's room, and the link of
 * each host the room has had, joined by FIFO channels. Channels are kept as whole histories
 * with a mark for what has been consumed.
 *
 * The environment hypotheses are guards of the steps: (E) the relay takes nothing more from
 * a socket it has closed, and a socket is used once; (S) it takes nothing from a superseded
 * host; connIds fit in four bytes.
 */
module Multiplexer {
  import opened Bytes
  import opened RelayWire
  import opened ClientWire
  import opened RelayRoom
  import opened RelayLink
  import opened Streams

  /** A socket: what its client wrote, how much of that the relay took; what the relay wrote, how much the client read. */
  datatype Wire = Wire(up: seq<Buffer>, taken: nat, down: seq<Down>, read: nat)

  /**
   * The bookkeeping of one connId in one tenure: its socket, the slice [base, end) of the
   * peer's frames that was routed, the slice [dbase, dend) of the peer's inbound frames that
   * belongs to this tenure, and how many of the host's frames have counted towards it.
   */
  datatype Flow = Flow(owner: Socket, base: nat, end: nat, dbase: nat, dend: Option<nat>, uend: nat)

  datatype HostEnd = HostEnd(link: HostLink, flows: map<nat, Flow>)

  datatype Sys = Sys(room: Room, over: bool, attached: map<Socket, nat>, severed: set<Socket>,
                     wires: map<Socket, Wire>, ends: map<Socket, HostEnd>)

  datatype Action =
    | Joins(p: Socket)
    | PeerSends(p: Socket, buf: Buffer)
    | PeerFrame(p: Socket)
    | PeerCloses(p: Socket)
    | HostSends(h: Socket, i: nat, payload: Payload)
    | HostKicks(h: Socket, i: nat)
    | HostSignals(h: Socket, handoff: bool)
    | HostFrame(now: int)
    | HostReads(h: Socket)
    | HostListens(h: Socket)
    | HostDrops(h: Socket, own: bool)
    | Claims(h: Socket)
    | Ends

  function Applied(wires: map<Socket, Wire>, out: seq<Effect>): map<Socket, Wire> {
    map s | s in wires :: wires[s].(down := wires[s].down + SentTo(out, s))
  }

  function Written(wires: map<Socket, Wire>, s: Socket, frames: seq<Buffer>): map<Socket, Wire>
    requires s in wires
  {
    wires[s := wires[s].(up := wires[s].up + frames)]
  }

  function Initial(h: Socket): Sys {
    Sys(NewRoom(h), false, map[], {}, map[h := Wire([], 0, [Ready(None)], 0)], map[h := HostEnd(NEW_LINK, map[])])
  }

  predicate Enabled(s: Sys, a: Action) {
    match a
    case Joins(p) => !s.over && p !in s.wires && s.room.nextConnId < CONN_ID_LIMIT && s.room.host in s.ends && s.room.host in s.wires
    case PeerSends(p, buf) => p in s.attached && p in s.wires
    case PeerFrame(p) => !s.over && p in s.attached && p !in s.severed && p in s.wires && s.wires[p].taken < |s.wires[p].up|
                         && s.room.host in s.ends && s.attached[p] in s.ends[s.room.host].flows
    case PeerCloses(p) => !s.over && p in s.attached
    case HostSends(h, i, payload) => h in s.ends && h in s.wires && i < |s.ends[h].link.vts|
    case HostKicks(h, i) => h in s.ends && h in s.wires && i < |s.ends[h].link.vts|
    case HostSignals(h, handoff) => h in s.ends && h in s.wires && !s.ends[h].link.closed
    case HostFrame(now) => !s.over && s.room.host in s.ends && s.room.host in s.wires && s.wires[s.room.host].taken < |s.wires[s.room.host].up|
    case HostReads(h) => h in s.ends && h in s.wires && s.wires[h].read < |s.wires[h].down|
                         && forall c | c in s.ends[h].link.peers :: s.ends[h].link.peers[c] < |s.ends[h].link.vts|
    case HostListens(h) => h in s.ends
    case HostDrops(h, own) => h in s.ends
    case Claims(h) => !s.over && h !in s.wires && s.room.deadline.Some? && s.room.host in s.ends && s.room.host in s.wires
                      && forall c | c in s.room.peers :: s.room.peers[c] in s.wires
    case Ends => !s.over
  }

  function Join1(s: Sys, p: Socket): Sys
    requires Enabled(s, Joins(p))
  {
    var c, h := s.room.nextConnId, s.room.host;
    var r := Join(s.room, p);
    var w := Applied(s.wires[p := Wire([], 0, [], 0)], r.out);
    s.(room := r.room, attached := s.attached[p := c], wires := w,
       ends := s.ends[h := s.ends[h].(flows := s.ends[h].flows[c := Flow(p, 0, 0, 0, None, s.wires[h].taken)])])
  }

  function PeerFrame1(s: Sys, p: Socket): Sys
    requires Enabled(s, PeerFrame(p))
  {
    var c, h, w := s.attached[p], s.room.host, s.wires[p];
    var buf := w.up[w.taken];
    var out := if TypeIs(buf, PING) then [Send(p, Pong)] else RelayRoom.FromPeer(s.room, c, buf).out;
    var f := s.ends[h].flows[c];
    s.(wires := Applied(s.wires[p := w.(taken := w.taken + 1)], out),
       ends := if s.room.deadline.Some? then s.ends
               else s.ends[h := s.ends[h].(flows := s.ends[h].flows[c := f.(end := w.taken + 1)])])
  }

  function PeerClose1(s: Sys, p: Socket): Sys
    requires Enabled(s, PeerCloses(p))
  {
    var r := PeerClosed(s.room, s.attached[p]);
    s.(room := r.room, attached := s.attached - {p}, wires := Applied(s.wires, r.out))
  }

  function HostSend1(s: Sys, h: Socket, i: nat, payload: Payload): Sys
    requires Enabled(s, HostSends(h, i, payload))
  {
    s.(wires := Written(s.wires, h, Transmit(s.ends[h].link, i, payload)))
  }

  function HostKick1(s: Sys, h: Socket, i: nat): Sys
    requires Enabled(s, HostKicks(h, i))
  {
    var k := Kick(s.ends[h].link, i);
    s.(wires := Written(s.wires, h, k.frames), ends := s.ends[h := s.ends[h].(link := k.link)])
  }

  function Counted(flows: map<nat, Flow>, peers: map<nat, Socket>, t: nat): map<nat, Flow> {
    map c | c in flows :: if c in peers then flows[c].(uend := t) else flows[c]
  }

  function HostFrame1(s: Sys, now: int): Sys
    requires Enabled(s, HostFrame(now))
  {
    var h := s.room.host;
    var w := s.wires[h];
    var buf := w.up[w.taken];
    var r := if TypeIs(buf, PING) then Result(s.room, [Send(h, Pong)]) else RelayRoom.FromHost(s.room, h, buf, now);
    s.(room := r.room, severed := s.severed + Closed(r.out),
       wires := Applied(s.wires[h := w.(taken := w.taken + 1)], r.out),
       ends := s.ends[h := s.ends[h].(flows := Counted(s.ends[h].flows, s.room.peers, w.taken + 1))])
  }

  function HostRead1(s: Sys, h: Socket): Sys
    requires Enabled(s, HostReads(h))
  {
    var w := s.wires[h];
    s.(wires := s.wires[h := w.(read := w.read + 1)],
       ends := s.ends[h := s.ends[h].(link := OnFrame(s.ends[h].link, w.down[w.read]))])
  }

  function Sealed(flows: map<nat, Flow>, peers: map<nat, Socket>, wires: map<Socket, Wire>): map<nat, Flow>
    requires forall c | c in peers :: peers[c] in wires
  {
    map c | c in flows :: if c in peers then flows[c].(dend := Some(|wires[peers[c]].down|)) else flows[c]
  }

  function Claim1(s: Sys, h: Socket): Sys
    requires Enabled(s, Claims(h))
  {
    var g, r := s.room.host, Claim(s.room, h);
    var w := Applied(s.wires[h := Wire([], 0, [], 0)], r.out);
    var newFlows := map c | c in s.room.peers ::
                    Flow(s.room.peers[c], s.wires[s.room.peers[c]].taken, s.wires[s.room.peers[c]].taken, |w[s.room.peers[c]].down|, None, 0);
    s.(room := r.room, wires := w,
       ends := s.ends[g := s.ends[g].(flows := Sealed(s.ends[g].flows, s.room.peers, s.wires))][h := HostEnd(NEW_LINK, newFlows)])
  }

  function End1(s: Sys): Sys {
    var out := Teardown(s.room);
    s.(over := true, room := s.room.(peers := map[]), severed := s.severed + s.room.peers.Values, wires := Applied(s.wires, out))
  }

  function PeerSend1(s: Sys, p: Socket, buf: Buffer): Sys
    requires Enabled(s, PeerSends(p, buf))
  {
    s.(wires := Written(s.wires, p, [buf]))
  }

  function HostSignal1(s: Sys, h: Socket, handoff: bool): Sys
    requires Enabled(s, HostSignals(h, handoff))
  {
    s.(wires := Written(s.wires, h, [if handoff then EncodeHandoff() else EncodePing()]))
  }

  function WithLink(s: Sys, h: Socket, link: HostLink): Sys
    requires h in s.ends
  {
    s.(ends := s.ends[h := s.ends[h].(link := link)])
  }

  function Next(s: Sys, a: Action): Sys
    requires Enabled(s, a)
  {
    match a
    case Joins(p) => Join1(s, p)
    case PeerSends(p, buf) => PeerSend1(s, p, buf)
    case PeerFrame(p) => PeerFrame1(s, p)
    case PeerCloses(p) => PeerClose1(s, p)
    case HostSends(h, i, payload) => HostSend1(s, h, i, payload)
    case HostKicks(h, i) => HostKick1(s, h, i)
    case HostSignals(h, handoff) => HostSignal1(s, h, handoff)
    case HostFrame(now) => HostFrame1(s, now)
    case HostReads(h) => HostRead1(s, h)
    case HostListens(h) => WithLink(s, h, RelayLink.Wire(s.ends[h].link))
    case HostDrops(h, own) => WithLink(s, h, if own then s.ends[h].link.(closed := true) else TearDown(s.ends[h].link))
    case Claims(h) => Claim1(s, h)
    case Ends => End1(s)
  }

  // ----- the invariant -----

  /** What a virtual transport has heard is an unbroken slice of the data its connId was sent. */
  ghost predicate EarOk(vt: VirtualTransport, data: seq<Payload>, mapped: bool) {
    && vt.missed + |vt.heard| <= |data|
    && vt.heard == data[vt.missed..vt.missed + |vt.heard|]
    && (mapped ==> vt.missed + |vt.heard| == |data|)
  }

  ghost predicate Mapped(l: HostLink, i: nat)
    requires i < |l.vts|
  {
    l.vts[i].connId in l.peers && l.peers[l.vts[i].connId] == i
  }

  ghost predicate HostOk(e: HostEnd, w: Wire, next: nat) {
    && LinkInv(e.link)
    && w.read <= |w.down| && w.taken <= |w.up| && w.down != []
    && Disciplined(w.down)
    && ConnIds(e.link.vts) == UpIds(w.down[..w.read])
    && next <= CONN_ID_LIMIT
    && (forall c | c in UpIds(w.down) :: c < next)
    && (forall c :: c in e.flows <==> c in UpIds(w.down))
    && (forall c | c in KickIds(w.up) || HostSent(w.up, c) != [] :: c in UpIds(w.down[..w.read]))
    && (forall i | 0 <= i < |e.link.vts| :: EarOk(e.link.vts[i], ToHost(w.down[..w.read], e.link.vts[i].connId), Mapped(e.link, i)))
  }

  function FlowEnd(f: Flow, pw: Wire): nat {
    if f.dend.Some? then f.dend.value else |pw.down|
  }

  /** In this tenure, what the host was sent under c is what the relay took from the peer, and the other way round. */
  ghost predicate FlowOk(f: Flow, c: nat, hw: Wire, pw: Wire) {
    && f.base <= f.end <= pw.taken <= |pw.up|
    && f.dbase <= FlowEnd(f, pw) <= |pw.down|
    && f.uend <= hw.taken <= |hw.up|
    && ToHost(hw.down, c) == PeerSent(pw.up[f.base..f.end])
    && ToPeer(pw.down[f.dbase..FlowEnd(f, pw)]) == HostSent(hw.up[..f.uend], c)
  }

  ghost predicate OneFlowOk(f: Flow, c: nat, h: Socket, wires: map<Socket, Wire>, hosts: set<Socket>)
    requires h in wires
  {
    f.owner in wires && f.owner !in hosts && FlowOk(f, c, wires[h], wires[f.owner])
  }

  ghost predicate FlowsOk(flows: map<nat, Flow>, h: Socket, wires: map<Socket, Wire>, hosts: set<Socket>) {
    h in wires && forall c | c in flows :: OneFlowOk(flows[c], c, h, wires, hosts)
  }

  ghost predicate HostsOk(ends: map<Socket, HostEnd>, wires: map<Socket, Wire>, next: nat) {
    forall h | h in ends :: h in wires && HostOk(ends[h], wires[h], next) && FlowsOk(ends[h].flows, h, wires, ends.Keys)
  }

  /** A flow is open only while its peer is in the room under this very connId, or for a peer that has left for good. */
  ghost predicate OpenFlows(flows: map<nat, Flow>, g: Socket, room: Room) {
    forall d | d in flows && flows[d].dend.None? ::
      (g == room.host && d in room.peers && room.peers[d] == flows[d].owner) || flows[d].owner !in room.peers.Values
  }

  ghost predicate OpenOk(ends: map<Socket, HostEnd>, room: Room) {
    forall g | g in ends :: OpenFlows(ends[g].flows, g, room)
  }

  ghost predicate MemberOk(c: nat, p: Socket, attached: map<Socket, nat>, severed: set<Socket>) {
    p in attached && attached[p] == c && p !in severed
  }

  ghost predicate AttachedOk(p: Socket, c: nat, room: Room, severed: set<Socket>, wires: map<Socket, Wire>, hosts: set<Socket>) {
    && p in wires && p !in hosts && c < room.nextConnId
    && (p !in severed ==> c in room.peers && room.peers[c] == p)
  }

  ghost predicate SocketsOk(room: Room, over: bool, attached: map<Socket, nat>, severed: set<Socket>, wires: map<Socket, Wire>, hosts: set<Socket>) {
    && hosts <= wires.Keys && severed <= wires.Keys
    && room.host in hosts
    && (forall p | p in attached :: AttachedOk(p, attached[p], room, severed, wires, hosts))
    && (forall c | c in room.peers :: MemberOk(c, room.peers[c], attached, severed))
    && (forall p, q | p in attached && q in attached && attached[p] == attached[q] :: p == q)
    && (forall p | p in wires :: wires[p].taken <= |wires[p].up|)
    && room.nextConnId <= CONN_ID_LIMIT
    && (over ==> room.peers == map[])
  }

  /** The flow of a room member under its current host: open, and fully counted unless a handoff is pending. */
  ghost predicate Counting(f: Flow, p: Socket, pw: Wire, hw: Wire, pending: bool) {
    f.owner == p && f.dend.None? && f.uend == hw.taken && (!pending ==> f.end == pw.taken)
  }

  ghost predicate TenureOk(room: Room, flows: map<nat, Flow>, hw: Wire, wires: map<Socket, Wire>) {
    && (forall c | c in room.peers ::
          c in flows && room.peers[c] in wires && Counting(flows[c], room.peers[c], wires[room.peers[c]], hw, room.deadline.Some?))
    && room.peers.Keys <= Settle({}, hw.down)
  }

  /** View agreement, with every message in flight accounted for. */
  ghost predicate ViewOk(link: HostLink, w: Wire, room: Room) {
    && w.read <= |w.down| && w.taken <= |w.up|
    && (!link.closed ==> Settle(link.peers.Keys, w.down[w.read..]) == room.peers.Keys - Kicked(w.up[w.taken..]))
  }

  ghost predicate Inv(s: Sys) {
    && SocketsOk(s.room, s.over, s.attached, s.severed, s.wires, s.ends.Keys)
    && HostsOk(s.ends, s.wires, s.room.nextConnId)
    && OpenOk(s.ends, s.room)
    && TenureOk(s.room, s.ends[s.room.host].flows, s.wires[s.room.host], s.wires)
    && (!s.over ==> ViewOk(s.ends[s.room.host].link, s.wires[s.room.host], s.room))
  }
}
