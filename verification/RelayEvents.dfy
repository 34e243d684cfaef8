/** How the registry's events act on its rooms: on one room at a time, by the functions of module RelayRoom. */
module RelayEvents {
  import opened Bytes
  import opened RelayWire
  import opened RelayRoom
  import opened RateWindow
  import opened RelayRegistry

  datatype Change =
    | Nothing
    | Created(host: Socket)
    | Joined(peer: Socket)
    | ClaimedBy(host: Socket)
    | HostSaid(sock: Socket, buf: Buffer)
    | PeerSaid(connId: nat, buf: Buffer)
    | PeerLeft(connId: nat)
    | HostLeft

  datatype Outcome1 = Outcome1(room: Option<Room>, out: seq<Effect>)

  function Lookup(rooms: map<string, Room>, id: string): Option<Room> { if id in rooms then Some(rooms[id]) else None }

  function Put(rooms: map<string, Room>, id: string, room: Option<Room>): map<string, Room> {
    if room.Some? then rooms[id := room.value] else rooms - {id}
  }

  /** What a change does to the room it is about, and to nobody else. */
  function Act(room: Option<Room>, ch: Change, now: int): Outcome1
    requires ch.Nothing? || ch.Created? || room.Some?
  {
    match ch
    case Nothing => Outcome1(room, [])
    case Created(h) => Outcome1(Some(NewRoom(h)), [Send(h, Ready(None))])
    case Joined(p) => var r := Join(room.value, p); Outcome1(Some(r.room), r.out)
    case ClaimedBy(h) => var r := Claim(room.value, h); Outcome1(Some(r.room), r.out)
    case HostSaid(sock, buf) => var r := FromHost(room.value, sock, buf, now); Outcome1(Some(r.room), r.out)
    case PeerSaid(c, buf) => var r := FromPeer(room.value, c, buf); Outcome1(Some(r.room), r.out)
    case PeerLeft(c) => var r := PeerClosed(room.value, c); Outcome1(Some(r.room), r.out)
    case HostLeft => Outcome1(None, Teardown(room.value))
  }

  /** Nobody hears anything but the asker: a refusal, or the answer to a ping. */
  ghost predicate OnlyAnswered(out: seq<Effect>, sock: Socket) {
    forall e | e in out :: e.sock == sock
  }

  /** The events that change no room: a ping, a socket without a room, a host that is superseded or handing off, or a hello. */
  ghost predicate Idles(reg: Registry, ev: Event) {
    match ev
    case HelloEvent(_, _) => true
    case MessageEvent(sock, buf) => TypeIs(buf, PING) || sock !in reg.attached || reg.attached[sock].roomId !in reg.rooms
    case CloseEvent(sock) =>
      || sock !in reg.attached || reg.attached[sock].roomId !in reg.rooms
      || (reg.attached[sock].AsHost?
          && (reg.rooms[reg.attached[sock].roomId].host != sock || reg.rooms[reg.attached[sock].roomId].deadline.Some?))
    case SweepEvent(_) => false
  }

  /** Which change of which room an event may be, given whom it comes from. */
  ghost predicate Fits(reg: Registry, now: int, ev: Event, id: string, ch: Change) {
    match ch
    case Nothing => Idles(reg, ev)
    case Created(h) => ev == HelloEvent(h, Hello(HostRole, id, PROTOCOL_VERSION)) && h !in reg.attached && id !in reg.rooms
    case ClaimedBy(h) => ev == HelloEvent(h, Hello(HostRole, id, PROTOCOL_VERSION)) && h !in reg.attached && Claimable(reg, id, now)
    case Joined(p) => ev == HelloEvent(p, Hello(PeerRole, id, PROTOCOL_VERSION)) && p !in reg.attached && id in reg.rooms
    case HostSaid(sock, buf) =>
      ev == MessageEvent(sock, buf) && sock in reg.attached && reg.attached[sock] == AsHost(id) && id in reg.rooms && !TypeIs(buf, PING)
    case PeerSaid(c, buf) =>
      ev.MessageEvent? && ev.buf == buf && ev.sock in reg.attached && reg.attached[ev.sock] == AsPeer(id, c) && id in reg.rooms
      && !TypeIs(buf, PING)
    case PeerLeft(c) => ev.CloseEvent? && ev.sock in reg.attached && reg.attached[ev.sock] == AsPeer(id, c) && id in reg.rooms
    case HostLeft =>
      ev.CloseEvent? && ev.sock in reg.attached && reg.attached[ev.sock] == AsHost(id) && id in reg.rooms
      && reg.rooms[id].host == ev.sock && reg.rooms[id].deadline.None?
  }

  /** Where each socket is attached after the event. */
  function AttachedAfter(reg: Registry, ev: Event, id: string, ch: Change): map<Socket, Attached>
    requires ch.Joined? ==> id in reg.rooms
  {
    match ch
    case Created(h) => reg.attached[h := AsHost(id)]
    case ClaimedBy(h) => reg.attached[h := AsHost(id)]
    case Joined(p) => reg.attached[p := AsPeer(id, reg.rooms[id].nextConnId)]
    case _ => if ev.CloseEvent? then reg.attached - {ev.sock} else reg.attached
  }

  /** The event is this change of this room, and of nothing else but the attachments it entails. */
  ghost predicate Acts(reg: Registry, now: int, ev: Event, o: Outcome, id: string, ch: Change) {
    && Fits(reg, now, ev, id, ch)
    && (ch.Nothing? || ch.Created? || id in reg.rooms)
    && o.reg.rooms == Put(reg.rooms, id, Act(Lookup(reg.rooms, id), ch, now).room)
    && o.reg.attached == AttachedAfter(reg, ev, id, ch)
    && (ch.Nothing? && ev.HelloEvent? ==> Close(ev.sock) in o.out)
    && (ch.Nothing? && ev.CloseEvent? ==> o.out == [])
    && (if ch.Nothing? then OnlyAnswered(o.out, ev.sock) else o.out == Act(Lookup(reg.rooms, id), ch, now).out)
  }

  lemma ClaimActs(reg: Registry, lim: Limits, now: int, sock: Socket, hello: Hello)
    requires Claimable(reg, hello.roomId, now) && sock !in reg.attached && hello.role == HostRole && hello.proto == PROTOCOL_VERSION
    ensures Acts(reg, now, HelloEvent(sock, hello), HostHello(reg, lim, now, sock, hello.roomId), hello.roomId, ClaimedBy(sock))
  {
    hide Claim, Allow;
  }

  predicate MayCreate(reg: Registry, lim: Limits, now: int, sock: Socket, id: string) {
    |reg.rooms| < lim.maxRooms && Allow(reg.rate, lim, sock.ip, Creates, now).allowed && id !in reg.rooms
  }

  lemma HostHelloShape(reg: Registry, lim: Limits, now: int, sock: Socket, id: string)
    requires !Claimable(reg, id, now)
    ensures var o := HostHello(reg, lim, now, sock, id);
            if MayCreate(reg, lim, now, sock, id)
            then o.out == [Send(sock, Ready(None))] && o.reg.rooms == reg.rooms[id := NewRoom(sock)]
                 && o.reg.attached == reg.attached[sock := AsHost(id)]
            else o.reg.rooms == reg.rooms && o.reg.attached == reg.attached && OnlyAnswered(o.out, sock) && Close(sock) in o.out
  {
    hide Allow, Claim;
  }

  lemma HostHelloActs(reg: Registry, lim: Limits, now: int, sock: Socket, hello: Hello) returns (ch: Change)
    requires sock !in reg.attached && hello.role == HostRole && hello.proto == PROTOCOL_VERSION
    ensures Acts(reg, now, HelloEvent(sock, hello), HostHello(reg, lim, now, sock, hello.roomId), hello.roomId, ch)
  {
    hide Claim, Allow, FromHost, FromPeer, Join, PeerClosed, Teardown, HostHello, MayCreate, OnlyAnswered;
    var id := hello.roomId;
    if Claimable(reg, id, now) {
      ClaimActs(reg, lim, now, sock, hello);
      ch := ClaimedBy(sock);
    } else {
      HostHelloShape(reg, lim, now, sock, id);
      ch := if MayCreate(reg, lim, now, sock, id) then Created(sock) else Nothing;
      assert ch == Created(sock) ==> id !in reg.rooms by { NewOnly(reg, lim, now, sock, id); }
      assert reg.rooms == Put(reg.rooms, id, Lookup(reg.rooms, id));
    }
  }

  lemma NewOnly(reg: Registry, lim: Limits, now: int, sock: Socket, id: string)
    ensures MayCreate(reg, lim, now, sock, id) ==> id !in reg.rooms
  {
  }

  lemma PeerHelloActs(reg: Registry, lim: Limits, now: int, sock: Socket, hello: Hello) returns (ch: Change)
    requires sock !in reg.attached && hello.role == PeerRole && hello.proto == PROTOCOL_VERSION
    ensures Acts(reg, now, HelloEvent(sock, hello), PeerHello(reg, lim, now, sock, hello.roomId), hello.roomId, ch)
  {
    var id := hello.roomId;
    ch := if id in reg.rooms && |reg.rooms[id].peers| < lim.maxPeersPerRoom && Allow(reg.rate, lim, sock.ip, Joins, now).allowed
          then Joined(sock) else Nothing;
    hide Allow, Join;
  }

  /**
   * Every socket event acts on at most one room, there exactly as the room function that fits the event and the
   * place of the socket it comes from, moves only that socket's attachment, and leaves every other room alone;
   * when it acts on none, the only socket that hears anything is the one that asked.
   */
  lemma OneRoomAtATime(reg: Registry, lim: Limits, now: int, ev: Event) returns (id: string, ch: Change)
    requires !ev.SweepEvent?
    ensures Acts(reg, now, ev, Step(reg, lim, now, ev), id, ch)
  {
    id, ch := "", Nothing;
    match ev
    case HelloEvent(sock, hello) =>
      id := hello.roomId;
      if sock !in reg.attached && hello.proto == PROTOCOL_VERSION {
        if hello.role == HostRole { ch := HostHelloActs(reg, lim, now, sock, hello); }
        else { ch := PeerHelloActs(reg, lim, now, sock, hello); }
      }
    case MessageEvent(sock, buf) =>
      if sock in reg.attached {
        id := reg.attached[sock].roomId;
        if !TypeIs(buf, PING) && id in reg.rooms {
          ch := if reg.attached[sock].AsHost? then HostSaid(sock, buf) else PeerSaid(reg.attached[sock].connId, buf);
        }
      }
    case CloseEvent(sock) =>
      if sock in reg.attached && reg.attached[sock].roomId in reg.rooms {
        id := reg.attached[sock].roomId;
        var att, room := reg.attached[sock], reg.rooms[id];
        ch := if att.AsPeer? then PeerLeft(att.connId) else if room.host == sock && room.deadline.None? then HostLeft else Nothing;
      }
  }

  /** A sweep removes exactly the rooms whose handoff has expired, and changes no other. */
  lemma SweepRemovesExpired(reg: Registry, lim: Limits, now: int, order: seq<string>, id: string)
    ensures var r := Step(reg, lim, now, SweepEvent(order)).reg;
            && (id in r.rooms <==> id in reg.rooms && !Expired(reg.rooms[id], now))
            && (id in r.rooms ==> r.rooms[id] == reg.rooms[id])
  {
  }
}
