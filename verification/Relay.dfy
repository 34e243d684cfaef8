/** The relay's registry of rooms and sockets (server/src/relay.ts), as a function of its events. */
module RelayRegistry {
  import opened Bytes
  import opened RelayWire
  import opened RelayRoom
  import opened RateWindow

  const PROTOCOL_VERSION := 1

  datatype Role = HostRole | PeerRole
  datatype Hello = Hello(role: Role, roomId: string, proto: int)
  datatype Attached = AsHost(roomId: string) | AsPeer(roomId: string, connId: nat)

  datatype Registry = Registry(rooms: map<string, Room>, attached: map<Socket, Attached>, rate: Rates)

  datatype Outcome = Outcome(reg: Registry, out: seq<Effect>)

  const EMPTY := Registry(map[], map[], map[])

  function Turned(reg: Registry, sock: Socket, reason: Reason): Outcome {
    Outcome(reg, [Send(sock, Reject(reason)), Close(sock)])
  }

  predicate Claimable(reg: Registry, roomId: string, now: int) {
    roomId in reg.rooms && reg.rooms[roomId].deadline.Some? && now < reg.rooms[roomId].deadline.value
  }

  function Lifted(reg: Registry, roomId: string, r: Result): Outcome {
    Outcome(reg.(rooms := reg.rooms[roomId := r.room]), r.out)
  }

  function OnHello(reg: Registry, lim: Limits, now: int, sock: Socket, hello: Hello): Outcome {
    if sock in reg.attached then Turned(reg, sock, BadHello)
    else if hello.proto != PROTOCOL_VERSION then Turned(reg, sock, ProtoMismatch)
    else if hello.role == HostRole then HostHello(reg, lim, now, sock, hello.roomId)
    else PeerHello(reg, lim, now, sock, hello.roomId)
  }

  function HostHello(reg: Registry, lim: Limits, now: int, sock: Socket, roomId: string): Outcome {
    if Claimable(reg, roomId, now) then
      Lifted(reg.(attached := reg.attached[sock := AsHost(roomId)]), roomId, Claim(reg.rooms[roomId], sock))
    else if |reg.rooms| >= lim.maxRooms then Turned(reg, sock, ServerFull)
    else
      var v := Allow(reg.rate, lim, sock.ip, Creates, now);
      var counted := reg.(rate := v.rate);
      if !v.allowed then Turned(counted, sock, RateLimited)
      else if roomId in reg.rooms then Turned(counted, sock, RoomExists)
      else Lifted(counted.(attached := reg.attached[sock := AsHost(roomId)]), roomId, Result(NewRoom(sock), [Send(sock, Ready(None))]))
  }

  function PeerHello(reg: Registry, lim: Limits, now: int, sock: Socket, roomId: string): Outcome {
    if roomId !in reg.rooms then Turned(reg, sock, NoSuchRoom)
    else if |reg.rooms[roomId].peers| >= lim.maxPeersPerRoom then Turned(reg, sock, RoomFull)
    else
      var v := Allow(reg.rate, lim, sock.ip, Joins, now);
      var counted := reg.(rate := v.rate);
      if !v.allowed then Turned(counted, sock, RateLimited)
      else
        var room := reg.rooms[roomId];
        Lifted(counted.(attached := reg.attached[sock := AsPeer(roomId, room.nextConnId)]), roomId, Join(room, sock))
  }

  function OnMessage(reg: Registry, now: int, sock: Socket, buf: Buffer): Outcome {
    if TypeIs(buf, PING) then Outcome(reg, [Send(sock, Pong)])
    else if sock !in reg.attached then Outcome(reg, [])
    else
      var att := reg.attached[sock];
      if att.roomId !in reg.rooms then Outcome(reg, [])
      else if att.AsHost? then Lifted(reg, att.roomId, FromHost(reg.rooms[att.roomId], sock, buf, now))
      else Lifted(reg, att.roomId, FromPeer(reg.rooms[att.roomId], att.connId, buf))
  }

  function OnClose(reg: Registry, sock: Socket): Outcome {
    if sock !in reg.attached then Outcome(reg, [])
    else
      var att, detached := reg.attached[sock], reg.(attached := reg.attached - {sock});
      if att.roomId !in reg.rooms then Outcome(detached, [])
      else
        var room := reg.rooms[att.roomId];
        if att.AsPeer? then Lifted(detached, att.roomId, PeerClosed(room, att.connId))
        else if room.host != sock || room.deadline.Some? then Outcome(detached, [])
        else Outcome(detached.(rooms := reg.rooms - {att.roomId}), Teardown(room))
  }

  predicate Expired(room: Room, now: int) {
    room.deadline.Some? && now >= room.deadline.value
  }

  /** `order` is the order in which the map of rooms happens to be walked. */
  function SweepNotices(rooms: map<string, Room>, order: seq<string>, now: int): seq<Effect> {
    if order == [] then []
    else
      var before, id := SweepNotices(rooms, order[..|order| - 1], now), order[|order| - 1];
      if id in rooms && Expired(rooms[id], now) then before + Teardown(rooms[id]) else before
  }

  function Sweep(reg: Registry, lim: Limits, now: int, order: seq<string>): Outcome {
    Outcome(reg.(rooms := map id | id in reg.rooms && !Expired(reg.rooms[id], now) :: reg.rooms[id],
                 rate := SweepRates(reg.rate, lim, now)),
            SweepNotices(reg.rooms, order, now))
  }

  datatype Event =
    | HelloEvent(sock: Socket, hello: Hello)
    | MessageEvent(sock: Socket, buf: Buffer)
    | CloseEvent(sock: Socket)
    | SweepEvent(order: seq<string>)

  function Step(reg: Registry, lim: Limits, now: int, ev: Event): Outcome {
    match ev
    case HelloEvent(sock, hello) => OnHello(reg, lim, now, sock, hello)
    case MessageEvent(sock, buf) => OnMessage(reg, now, sock, buf)
    case CloseEvent(sock) => OnClose(reg, sock)
    case SweepEvent(order) => Sweep(reg, lim, now, order)
  }

  // ----- the registry invariant, in every reachable state and with no hypothesis on the sockets -----

  ghost predicate RoomInv(room: Room, attached: map<Socket, Attached>, lim: Limits, id: string) {
    && |room.peers| <= lim.maxPeersPerRoom
    && (forall c | c in room.peers :: c < room.nextConnId && room.peers[c] in attached && attached[room.peers[c]] == AsPeer(id, c))
    && (room.deadline.None? ==> room.host in attached && attached[room.host] == AsHost(id))
  }

  ghost predicate Inv(reg: Registry, lim: Limits) {
    && |reg.rooms| <= lim.maxRooms
    && forall id | id in reg.rooms :: RoomInv(reg.rooms[id], reg.attached, lim, id)
  }

  lemma {:induction false} SubsetSize<T>(a: set<T>, b: set<T>)
    requires a <= b
    ensures |a| <= |b|
  {
    if a != {} {
      var x :| x in a;
      SubsetSize(a - {x}, b - {x});
    }
  }

  lemma FewerRooms(a: map<string, Room>, b: map<string, Room>)
    requires a.Keys <= b.Keys
    ensures |a| <= |b|
  {
    SubsetSize(a.Keys, b.Keys);
    assert |a| == |a.Keys| && |b| == |b.Keys|;
  }

  lemma WithoutSize(peers: map<nat, Socket>, c: nat)
    ensures |Without(peers, c)| <= |peers|
  {
    SubsetSize(Without(peers, c).Keys, peers.Keys);
    assert |Without(peers, c)| == |Without(peers, c).Keys| && |peers| == |peers.Keys|;
  }

  /** Replacing, or adding within the limit, one room that satisfies its invariant. */
  lemma LiftKeepsInv(reg: Registry, lim: Limits, id: string, room: Room)
    requires Inv(reg, lim) && RoomInv(room, reg.attached, lim, id)
    requires id !in reg.rooms ==> |reg.rooms| < lim.maxRooms
    ensures Inv(reg.(rooms := reg.rooms[id := room]), lim)
  {
    var rooms' := reg.rooms[id := room];
    if id in reg.rooms { FewerRooms(rooms', reg.rooms); }
  }

  /** Attaching a socket that was attached nowhere disturbs no room. */
  lemma AttachKeepsInv(reg: Registry, lim: Limits, sock: Socket, att: Attached)
    requires Inv(reg, lim) && sock !in reg.attached
    ensures Inv(reg.(attached := reg.attached[sock := att]), lim)
  {
    forall id | id in reg.rooms ensures RoomInv(reg.rooms[id], reg.attached[sock := att], lim, id) {
      assert RoomInv(reg.rooms[id], reg.attached, lim, id);
    }
  }

  lemma HostHelloKeepsInv(reg: Registry, lim: Limits, now: int, sock: Socket, id: string)
    requires Inv(reg, lim) && sock !in reg.attached
    ensures Inv(HostHello(reg, lim, now, sock, id).reg, lim)
  {
    var attached' := reg.(attached := reg.attached[sock := AsHost(id)]);
    AttachKeepsInv(reg, lim, sock, AsHost(id));
    if Claimable(reg, id, now) {
      LiftKeepsInv(attached', lim, id, Claim(reg.rooms[id], sock).room);
    } else if |reg.rooms| < lim.maxRooms {
      var v := Allow(reg.rate, lim, sock.ip, Creates, now);
      assert Inv(reg.(rate := v.rate), lim) && Inv(attached'.(rate := v.rate), lim);
      if id !in reg.rooms {
        LiftKeepsInv(attached'.(rate := v.rate), lim, id, NewRoom(sock));
      }
    }
  }

  lemma PeerHelloKeepsInv(reg: Registry, lim: Limits, now: int, sock: Socket, id: string)
    requires Inv(reg, lim) && sock !in reg.attached
    ensures Inv(PeerHello(reg, lim, now, sock, id).reg, lim)
  {
    if id in reg.rooms {
      var room, v := reg.rooms[id], Allow(reg.rate, lim, sock.ip, Joins, now);
      var att := AsPeer(id, room.nextConnId);
      AttachKeepsInv(reg, lim, sock, att);
      var attached' := reg.(attached := reg.attached[sock := att], rate := v.rate);
      assert Inv(reg.(rate := v.rate), lim) && Inv(attached', lim);
      if |room.peers| < lim.maxPeersPerRoom {
        var joined := Join(room, sock).room;
        assert room.nextConnId !in room.peers;
        assert |joined.peers| == |room.peers| + 1;
        LiftKeepsInv(attached', lim, id, joined);
      }
    }
  }

  lemma MessageKeepsInv(reg: Registry, lim: Limits, now: int, sock: Socket, buf: Buffer)
    requires Inv(reg, lim)
    ensures Inv(OnMessage(reg, now, sock, buf).reg, lim)
  {
    if sock in reg.attached && reg.attached[sock].roomId in reg.rooms {
      var att := reg.attached[sock];
      var room := reg.rooms[att.roomId];
      var r := if att.AsHost? then FromHost(room, sock, buf, now) else FromPeer(room, att.connId, buf);
      if DecodeKick(buf).Some? { WithoutSize(room.peers, DecodeKick(buf).value); }
      assert RoomInv(r.room, reg.attached, lim, att.roomId);
      LiftKeepsInv(reg, lim, att.roomId, r.room);
    }
  }

  /** Detaching a socket keeps every room that holds it neither as a peer nor as a settled host. */
  lemma DetachKeepsRoom(room: Room, attached: map<Socket, Attached>, lim: Limits, id: string, sock: Socket)
    requires RoomInv(room, attached, lim, id) && sock in attached
    requires forall c | c in room.peers :: attached[sock] != AsPeer(id, c)
    requires room.deadline.None? ==> attached[sock] != AsHost(id) || room.host != sock
    ensures RoomInv(room, attached - {sock}, lim, id)
  {
    forall c | c in room.peers ensures room.peers[c] != sock {
      assert attached[room.peers[c]] == AsPeer(id, c);
    }
  }

  lemma CloseKeepsInv(reg: Registry, lim: Limits, sock: Socket)
    requires Inv(reg, lim)
    ensures Inv(OnClose(reg, sock).reg, lim)
  {
    if sock in reg.attached {
      var att, reg' := reg.attached[sock], OnClose(reg, sock).reg;
      FewerRooms(reg'.rooms, reg.rooms);
      forall id | id in reg'.rooms ensures RoomInv(reg'.rooms[id], reg'.attached, lim, id) {
        var room := reg.rooms[id];
        assert RoomInv(room, reg.attached, lim, id);
        if att.AsPeer? && att.roomId == id {
          WithoutSize(room.peers, att.connId);
          DetachKeepsRoom(room.(peers := Without(room.peers, att.connId)), reg.attached, lim, id, sock);
        } else {
          DetachKeepsRoom(room, reg.attached, lim, id, sock);
        }
      }
    }
  }

  lemma SweepKeepsInv(reg: Registry, lim: Limits, now: int, order: seq<string>)
    requires Inv(reg, lim)
    ensures Inv(Sweep(reg, lim, now, order).reg, lim)
  {
    FewerRooms(Sweep(reg, lim, now, order).reg.rooms, reg.rooms);
  }

  datatype Timed = Timed(now: int, ev: Event)

  function Run(reg: Registry, lim: Limits, run: seq<Timed>): Registry
    decreases |run|
  {
    if run == [] then reg else Run(Step(reg, lim, run[0].now, run[0].ev).reg, lim, run[1..])
  }

  lemma StepKeepsInv(reg: Registry, lim: Limits, now: int, ev: Event)
    requires Inv(reg, lim)
    ensures Inv(Step(reg, lim, now, ev).reg, lim)
  {
    match ev
    case HelloEvent(sock, hello) =>
      if sock !in reg.attached {
        if hello.role == HostRole { HostHelloKeepsInv(reg, lim, now, sock, hello.roomId); }
        else { PeerHelloKeepsInv(reg, lim, now, sock, hello.roomId); }
      }
    case MessageEvent(sock, buf) => MessageKeepsInv(reg, lim, now, sock, buf);
    case CloseEvent(sock) => CloseKeepsInv(reg, lim, sock);
    case SweepEvent(order) => SweepKeepsInv(reg, lim, now, order);
  }

  /** The registry invariant holds after any run of events whatever, at any times. */
  lemma {:induction false} RegistryInvariant(reg: Registry, lim: Limits, run: seq<Timed>)
    requires Inv(reg, lim)
    ensures Inv(Run(reg, lim, run), lim)
    decreases |run|
  {
    if run != [] {
      StepKeepsInv(reg, lim, run[0].now, run[0].ev);
      RegistryInvariant(Step(reg, lim, run[0].now, run[0].ev).reg, lim, run[1..]);
    }
  }

  /** No socket is in two rooms, nor in one room under two connIds, nor both a peer and a settled host. */
  lemma OnePlacePerSocket(reg: Registry, lim: Limits, a: string, c: nat, b: string, d: nat)
    requires Inv(reg, lim) && a in reg.rooms && b in reg.rooms && c in reg.rooms[a].peers && d in reg.rooms[b].peers
    ensures reg.rooms[a].peers[c] == reg.rooms[b].peers[d] ==> a == b && c == d
    ensures reg.rooms[b].deadline.None? ==> reg.rooms[a].peers[c] != reg.rooms[b].host
  {
    assert RoomInv(reg.rooms[a], reg.attached, lim, a) && RoomInv(reg.rooms[b], reg.attached, lim, b);
  }
}
