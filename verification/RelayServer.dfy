/** The relay as the object it is: three maps, reassigned by the socket events and the sweeper. */
module RelayServer {
  import opened Bytes
  import opened RelayWire
  import opened RelayRoom
  import opened RateWindow
  import opened RelayRegistry

  class Relay {
    var rooms: map<string, Room>
    var attached: map<Socket, Attached>
    var rate: Rates
    const lim: Limits

    function State(): Registry reads this { Registry(rooms, attached, rate) }

    constructor (lim: Limits)
      ensures State() == EMPTY && this.lim == lim
    {
      this.lim := lim;
      rooms, attached, rate := map[], map[], map[];
    }

    method OnHello(sock: Socket, hello: Hello, now: int) returns (out: seq<Effect>)
      modifies this
      ensures Outcome(State(), out) == RelayRegistry.OnHello(old(State()), lim, now, sock, hello)
    {
      if sock in attached {
        out := [Send(sock, Reject(BadHello)), Close(sock)];
      } else if hello.proto != PROTOCOL_VERSION {
        out := [Send(sock, Reject(ProtoMismatch)), Close(sock)];
      } else if hello.role == HostRole {
        out := HostHello(sock, hello.roomId, now);
      } else {
        out := PeerHello(sock, hello.roomId, now);
      }
    }

    method HostHello(sock: Socket, roomId: string, now: int) returns (out: seq<Effect>)
      modifies this
      ensures Outcome(State(), out) == RelayRegistry.HostHello(old(State()), lim, now, sock, roomId)
    {
      if roomId in rooms && rooms[roomId].deadline.Some? && now < rooms[roomId].deadline.value {
        out := ClaimHandoff(sock, roomId);
        return;
      }
      if |rooms| >= lim.maxRooms {
        return [Send(sock, Reject(ServerFull)), Close(sock)];
      }
      var allowed := AllowOne(sock.ip, Creates, now);
      if !allowed {
        return [Send(sock, Reject(RateLimited)), Close(sock)];
      }
      if roomId in rooms {
        return [Send(sock, Reject(RoomExists)), Close(sock)];
      }
      rooms := rooms[roomId := Room(sock, map[], 1, None)];
      attached := attached[sock := AsHost(roomId)];
      out := [Send(sock, Ready(None))];
    }

    method ClaimHandoff(sock: Socket, roomId: string) returns (out: seq<Effect>)
      requires roomId in rooms
      modifies this
      ensures Outcome(State(), out) ==
              Lifted(old(State()).(attached := old(attached)[sock := AsHost(roomId)]), roomId, Claim(old(rooms)[roomId], sock))
    {
      var room := rooms[roomId].(host := sock, deadline := None);
      rooms := rooms[roomId := room];
      attached := attached[sock := AsHost(roomId)];
      var notices: seq<Effect> := [];
      for c := 0 to room.nextConnId
        invariant notices == ClaimNotices(sock, room.peers, c)
      {
        if c in room.peers {
          notices := notices + [Send(sock, PeerUp(c)), Send(room.peers[c], HostClaimed)];
        }
      }
      out := [Send(sock, Ready(None))] + notices;
    }

    method PeerHello(sock: Socket, roomId: string, now: int) returns (out: seq<Effect>)
      modifies this
      ensures Outcome(State(), out) == RelayRegistry.PeerHello(old(State()), lim, now, sock, roomId)
    {
      if roomId !in rooms {
        return [Send(sock, Reject(NoSuchRoom)), Close(sock)];
      }
      if |rooms[roomId].peers| >= lim.maxPeersPerRoom {
        return [Send(sock, Reject(RoomFull)), Close(sock)];
      }
      var allowed := AllowOne(sock.ip, Joins, now);
      if !allowed {
        return [Send(sock, Reject(RateLimited)), Close(sock)];
      }
      var room := rooms[roomId];
      var c := room.nextConnId;
      rooms := rooms[roomId := room.(nextConnId := c + 1, peers := room.peers[c := sock])];
      attached := attached[sock := AsPeer(roomId, c)];
      out := [Send(sock, Ready(Some(c))), Send(room.host, PeerUp(c))];
    }

    method OnMessage(sock: Socket, buf: Buffer, now: int) returns (out: seq<Effect>)
      modifies this`rooms
      ensures Outcome(State(), out) == RelayRegistry.OnMessage(old(State()), now, sock, buf)
    {
      if TypeIs(buf, PING) { return [Send(sock, Pong)]; }
      if sock !in attached { return []; }
      var att := attached[sock];
      if att.roomId !in rooms { return []; }
      var room := rooms[att.roomId];
      out := [];
      if att.AsHost? {
        if TypeIs(buf, KICK) {
          var k := DecodeKick(buf);
          if k.Some? && k.value in room.peers {
            rooms := rooms[att.roomId := room.(peers := Without(room.peers, k.value))];
            out := [Close(room.peers[k.value])];
          }
        } else if TypeIs(buf, HANDOFF) {
          if room.host == sock {
            rooms := rooms[att.roomId := room.(deadline := Some(now + HANDOFF_GRACE_MS))];
          }
        } else {
          var d := DecodeDataFromHost(buf);
          if d.Some? && d.value.connId in room.peers {
            out := [Send(room.peers[d.value.connId], Raw(DataToPeer(d.value.payload)))];
          }
        }
      } else if room.deadline.None? {
        var d := DecodeDataFromPeer(buf);
        if d.Some? && att.connId < CONN_ID_LIMIT {
          var frame := BuildDataToHost(att.connId, d.value);
          out := [Send(room.host, Raw(frame))];
        }
      }
      assert old(rooms)[att.roomId := room] == old(rooms);
    }

    method OnClose(sock: Socket) returns (out: seq<Effect>)
      modifies this
      ensures Outcome(State(), out) == RelayRegistry.OnClose(old(State()), sock)
    {
      if sock !in attached { return []; }
      var att := attached[sock];
      attached := attached - {sock};
      if att.roomId !in rooms { return []; }
      var room := rooms[att.roomId];
      if att.AsHost? {
        if room.host != sock || room.deadline.Some? { return []; }
        out := TeardownRoom(att.roomId);
      } else {
        rooms := rooms[att.roomId := room.(peers := Without(room.peers, att.connId))];
        out := [Send(room.host, PeerDown(att.connId))];
      }
    }

    method TeardownRoom(roomId: string) returns (out: seq<Effect>)
      requires roomId in rooms
      modifies this`rooms
      ensures rooms == old(rooms) - {roomId} && out == Teardown(old(rooms)[roomId])
    {
      var room := rooms[roomId];
      out := [];
      for c := 0 to room.nextConnId
        invariant out == TeardownNotices(room.peers, c)
      {
        if c in room.peers {
          out := out + [Send(room.peers[c], HostGone), Close(room.peers[c])];
        }
      }
      rooms := rooms - {roomId};
    }

    method AllowOne(ip: string, kind: Kind, now: int) returns (allowed: bool)
      modifies this`rate
      ensures Verdict(rate, allowed) == Allow(old(rate), lim, ip, kind, now)
    {
      var bucket := if ip in rate then rate[ip] else Bucket([], []);
      var arr := Times(bucket, kind);
      var young: seq<int> := [];
      for i := 0 to |arr|
        invariant young == Fresh(arr[..i], now, lim.rateWindowMs)
      {
        assert arr[..i + 1][..i] == arr[..i];
        if now - arr[i] < lim.rateWindowMs { young := young + [arr[i]]; }
      }
      assert arr[..|arr|] == arr;
      if |young| >= Cap(lim, kind) {
        rate := rate[ip := WithTimes(bucket, kind, young)];
        return false;
      }
      rate := rate[ip := WithTimes(bucket, kind, young + [now])];
      return true;
    }

    /** `order` reports the order in which the rooms were visited. */
    method Sweep(now: int) returns (out: seq<Effect>, ghost order: seq<string>)
      modifies this
      ensures Outcome(State(), out) == RelayRegistry.Sweep(old(State()), lim, now, order)
      ensures forall id | id in old(rooms) :: id in order
      ensures forall i, j | 0 <= i < j < |order| :: order[i] != order[j]
    {
      out, order := [], [];
      var todo := rooms.Keys;
      while todo != {}
        invariant todo <= rooms.Keys
        invariant attached == old(attached) && rate == old(rate)
        invariant forall id :: id in order <==> id in old(rooms) && id !in todo
        invariant forall i, j | 0 <= i < j < |order| :: order[i] != order[j]
        invariant rooms == map id | id in old(rooms) && (id in todo || !Expired(old(rooms)[id], now)) :: old(rooms)[id]
        invariant out == SweepNotices(old(rooms), order, now)
      {
        var id :| id in todo;
        todo := todo - {id};
        assert (order + [id])[..|order|] == order;
        if rooms[id].deadline.Some? && now >= rooms[id].deadline.value {
          var notices := TeardownRoom(id);
          out := out + notices;
        }
        order := order + [id];
      }
      DropIdleBuckets(now);
    }

    method DropIdleBuckets(now: int)
      modifies this`rate
      ensures rate == SweepRates(old(rate), lim, now)
    {
      var todo := rate.Keys;
      while todo != {}
        invariant todo <= rate.Keys
        invariant rate == map ip | ip in old(rate) && (ip in todo || !Idle(old(rate)[ip], now, lim.rateWindowMs)) :: old(rate)[ip]
      {
        var ip :| ip in todo;
        todo := todo - {ip};
        if Idle(rate[ip], now, lim.rateWindowMs) { rate := rate - {ip}; }
      }
    }
  }
}
