/**
 * One room of the relay: a host socket, the peers by connId, the next connId and the
 * deadline of a pending handoff. Every event of server/src/relay.ts that touches a room is
 * one of the functions below.
 */
module RelayRoom {
  import opened Bytes
  import opened RelayWire

  datatype Socket = Socket(id: nat, ip: string)

  datatype Reason = RoomExists | NoSuchRoom | RoomFull | RateLimited | BadHello | ProtoMismatch | ServerFull

  /** What the relay sends down a socket. Frames with a JSON body stay abstract. */
  datatype Down =
    | Ready(connId: Option<nat>)
    | Reject(reason: Reason)
    | PeerUp(id: nat)
    | PeerDown(id: nat)
    | HostGone
    | HostClaimed
    | Pong
    | Raw(frame: Buffer)

  datatype Effect = Send(sock: Socket, msg: Down) | Close(sock: Socket)

  datatype Room = Room(host: Socket, peers: map<nat, Socket>, nextConnId: nat, deadline: Option<int>)

  datatype Result = Result(room: Room, out: seq<Effect>)

  const HANDOFF_GRACE_MS := 8_000
  const CONN_ID_LIMIT := 0x1_0000_0000

  function NewRoom(host: Socket): Room { Room(host, map[], 1, None) }

  function Without(peers: map<nat, Socket>, c: nat): map<nat, Socket> {
    map k | k in peers && k != c :: peers[k]
  }

  /** The tagged frame for the host; a connId that no longer fits in four bytes makes the write throw. */
  function Tag(host: Socket, c: nat, p: Payload): seq<Effect> {
    if c < CONN_ID_LIMIT then [Send(host, Raw(DataToHost(c, p)))] else []
  }

  function Join(room: Room, p: Socket): Result {
    var c := room.nextConnId;
    Result(room.(nextConnId := c + 1, peers := room.peers[c := p]), [Send(p, Ready(Some(c))), Send(room.host, PeerUp(c))])
  }

  /** For every peer below `bound`, in connId order, which is the order they joined in. */
  function ClaimNotices(host: Socket, peers: map<nat, Socket>, bound: nat): seq<Effect> {
    if bound == 0 then []
    else
      var before := ClaimNotices(host, peers, bound - 1);
      if bound - 1 in peers then before + [Send(host, PeerUp(bound - 1)), Send(peers[bound - 1], HostClaimed)] else before
  }

  function Claim(room: Room, host: Socket): Result {
    Result(room.(host := host, deadline := None), [Send(host, Ready(None))] + ClaimNotices(host, room.peers, room.nextConnId))
  }

  function TeardownNotices(peers: map<nat, Socket>, bound: nat): seq<Effect> {
    if bound == 0 then []
    else
      var before := TeardownNotices(peers, bound - 1);
      if bound - 1 in peers then before + [Send(peers[bound - 1], HostGone), Close(peers[bound - 1])] else before
  }

  function Teardown(room: Room): seq<Effect> { TeardownNotices(room.peers, room.nextConnId) }

  /** A frame from a socket attached as host of this room (whether or not it still is the host). */
  function FromHost(room: Room, sock: Socket, buf: Buffer, now: int): Result {
    if TypeIs(buf, KICK) then
      var k := DecodeKick(buf);
      if k.Some? && k.value in room.peers
      then Result(room.(peers := Without(room.peers, k.value)), [Close(room.peers[k.value])])
      else Result(room, [])
    else if TypeIs(buf, HANDOFF) then
      Result(if room.host == sock then room.(deadline := Some(now + HANDOFF_GRACE_MS)) else room, [])
    else
      var d := DecodeDataFromHost(buf);
      Result(room, if d.Some? && d.value.connId in room.peers
                   then [Send(room.peers[d.value.connId], Raw(DataToPeer(d.value.payload)))] else [])
  }

  /** A frame from a socket attached as peer `c`; dropped while a handoff is pending. */
  function FromPeer(room: Room, c: nat, buf: Buffer): Result {
    var d := DecodeDataFromPeer(buf);
    Result(room, if room.deadline.None? && d.Some? then Tag(room.host, c, d.value) else [])
  }

  function PeerClosed(room: Room, c: nat): Result {
    Result(room.(peers := Without(room.peers, c)), [Send(room.host, PeerDown(c))])
  }

  // ----- what a run of effects puts on one socket -----

  function Reaching(e: Effect, sock: Socket): seq<Down> {
    if e.Send? && e.sock == sock then [e.msg] else []
  }

  function SentTo(out: seq<Effect>, sock: Socket): seq<Down> {
    if out == [] then [] else SentTo(out[..|out| - 1], sock) + Reaching(out[|out| - 1], sock)
  }

  lemma SentToPair(out: seq<Effect>, e: Effect, f: Effect, sock: Socket)
    ensures SentTo(out + [e, f], sock) == SentTo(out, sock) + Reaching(e, sock) + Reaching(f, sock)
  {
    assert (out + [e, f])[..|out| + 1] == out + [e];
    assert (out + [e])[..|out|] == out;
  }

  lemma {:induction false} SentToConcat(a: seq<Effect>, b: seq<Effect>, sock: Socket)
    ensures SentTo(a + b, sock) == SentTo(a, sock) + SentTo(b, sock)
  {
    if b == [] {
      assert a + b == a;
    } else {
      var b' := b[..|b| - 1];
      assert (a + b)[..|a + b| - 1] == a + b';
      SentToConcat(a, b', sock);
    }
  }

  function Closed(out: seq<Effect>): set<Socket> {
    set e | e in out && e.Close? :: e.sock
  }

  /** The connIds of `peers` below `bound`, ascending. */
  function Ascending(peers: map<nat, Socket>, bound: nat): seq<nat> {
    if bound == 0 then []
    else if bound - 1 in peers then Ascending(peers, bound - 1) + [bound - 1]
    else Ascending(peers, bound - 1)
  }

  function Ups(ids: seq<nat>): seq<Down> {
    seq(|ids|, i requires 0 <= i < |ids| => PeerUp(ids[i]))
  }

  ghost predicate OneIdEach(peers: map<nat, Socket>) {
    forall a, b | a in peers && b in peers && peers[a] == peers[b] :: a == b
  }

  /** A claim tells the new host about every surviving connId below `bound`, and nothing else. */
  lemma {:induction false} ClaimNoticesToHost(host: Socket, peers: map<nat, Socket>, bound: nat)
    requires host !in peers.Values
    ensures SentTo(ClaimNotices(host, peers, bound), host) == Ups(Ascending(peers, bound))
  {
    if bound > 0 {
      ClaimNoticesToHost(host, peers, bound - 1);
      if bound - 1 in peers {
        var rest := ClaimNotices(host, peers, bound - 1);
        assert peers[bound - 1] in peers.Values;
        SentToPair(rest, Send(host, PeerUp(bound - 1)), Send(peers[bound - 1], HostClaimed), host);
        assert Ups(Ascending(peers, bound)) == Ups(Ascending(peers, bound - 1)) + [PeerUp(bound - 1)];
      }
    }
  }

  /** Socket p is a peer under some connId below `bound`. */
  ghost predicate Below(peers: map<nat, Socket>, bound: nat, p: Socket) {
    exists c :: c in peers && c < bound && peers[c] == p
  }

  lemma BelowStep(peers: map<nat, Socket>, bound: nat, p: Socket)
    requires bound > 0
    ensures Below(peers, bound, p) <==> Below(peers, bound - 1, p) || (bound - 1 in peers && peers[bound - 1] == p)
  {
  }

  lemma BelowOnce(peers: map<nat, Socket>, bound: nat, p: Socket)
    requires OneIdEach(peers) && bound > 0 && bound - 1 in peers && peers[bound - 1] == p
    ensures !Below(peers, bound - 1, p)
  {
  }

  /** With every connId below the bound, the peers below it are all the peers. */
  lemma BelowAll(peers: map<nat, Socket>, bound: nat, p: Socket)
    requires forall c | c in peers :: c < bound
    ensures Below(peers, bound, p) <==> p in peers.Values
  {
  }

  lemma {:induction false} TeardownSends(peers: map<nat, Socket>, bound: nat, p: Socket)
    requires OneIdEach(peers)
    ensures SentTo(TeardownNotices(peers, bound), p) == if Below(peers, bound, p) then [HostGone] else []
  {
    hide Below, OneIdEach, SentTo;
    if bound == 0 {
      NobodyBelow(peers, p);
    } else {
      TeardownSends(peers, bound - 1, p);
      BelowStep(peers, bound, p);
      if bound - 1 in peers {
        var rest, q := TeardownNotices(peers, bound - 1), peers[bound - 1];
        SentToPair(rest, Send(q, HostGone), Close(q), p);
        if q == p { BelowOnce(peers, bound, p); }
      }
    }
  }

  lemma NobodyBelow(peers: map<nat, Socket>, p: Socket)
    ensures !Below(peers, 0, p) && SentTo([], p) == []
  {
  }

  lemma {:induction false} TeardownCloses(peers: map<nat, Socket>, bound: nat, p: Socket)
    ensures Close(p) in TeardownNotices(peers, bound) <==> Below(peers, bound, p)
  {
    hide Below;
    if bound == 0 {
      NobodyBelow(peers, p);
    } else {
      TeardownCloses(peers, bound - 1, p);
      BelowStep(peers, bound, p);
    }
  }

  /** A claim sends exactly one HOST_CLAIMED to each surviving peer, and nothing to anyone else. */
  lemma {:induction false} ClaimNoticesToPeer(host: Socket, peers: map<nat, Socket>, bound: nat, p: Socket)
    requires p != host && OneIdEach(peers)
    ensures SentTo(ClaimNotices(host, peers, bound), p) == if Below(peers, bound, p) then [HostClaimed] else []
  {
    hide Below, OneIdEach, SentTo;
    if bound == 0 {
      NobodyBelow(peers, p);
    } else {
      ClaimNoticesToPeer(host, peers, bound - 1, p);
      BelowStep(peers, bound, p);
      if bound - 1 in peers {
        var rest, q := ClaimNotices(host, peers, bound - 1), peers[bound - 1];
        SentToPair(rest, Send(host, PeerUp(bound - 1)), Send(q, HostClaimed), p);
        if q == p { BelowOnce(peers, bound, p); }
      }
    }
  }

  /** A teardown sends exactly one HOST_GONE to each peer, closes it, and touches no one else. */
  lemma TeardownReaches(peers: map<nat, Socket>, bound: nat, p: Socket)
    requires OneIdEach(peers)
    ensures SentTo(TeardownNotices(peers, bound), p) == if Below(peers, bound, p) then [HostGone] else []
    ensures Close(p) in TeardownNotices(peers, bound) <==> Below(peers, bound, p)
  {
    TeardownSends(peers, bound, p);
    TeardownCloses(peers, bound, p);
  }
}
