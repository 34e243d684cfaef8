/** The mutable host link (`RelayHostLink` and its virtual transports) against module RelayLink. */
module HostLinkObjects {
  import opened Bytes
  import opened RelayWire
  import opened ClientWire
  import opened RelayRoom
  import opened RelayLink

  class RelayHostLink {
    var vts: seq<VirtualTransport>
    var peers: map<nat, nat>
    var wired: bool
    var handed: seq<nat>
    var pending: seq<nat>
    var closed: bool

    function State(): HostLink
      reads this
    {
      HostLink(vts, peers, wired, handed, pending, closed)
    }

    constructor ()
      ensures State() == NEW_LINK
    {
      vts, peers, wired, handed, pending, closed := [], map[], false, [], [], false;
    }

    method OnRelayFrame(msg: Down)
      requires LinkInv(State())
      modifies this
      ensures State() == OnFrame(old(State()), msg) && LinkInv(State())
    {
      OnFrameKeepsInv(State(), msg);
      assert forall c | c in peers :: peers[c] < |vts|;
      hide LinkInv, DecodeData;
      match msg
      case PeerUp(c) =>
        var i := |vts|;
        vts := vts + [VirtualTransport(c, wired, false, 0, [], 0)];
        peers := peers[c := i];
        if wired { handed := handed + [i]; } else { pending := pending + [i]; }
      case PeerDown(c) =>
        if c in peers {
          vts := vts[peers[c] := Dropped(vts[peers[c]])];
          peers := Unmap(peers, c);
        }
      case Raw(frame) =>
        var d := DecodeData(frame);
        if d.Some? && d.value.connId.Some? && d.value.connId.value in peers {
          var i := peers[d.value.connId.value];
          vts := vts[i := Hear(vts[i], d.value.payload)];
        }
      case _ =>
    }

    /** Installs the callback and hands over, in order, what was waiting for it. */
    method OnConnection()
      requires LinkInv(State())
      modifies this
      ensures State() == Wire(old(State())) && LinkInv(State())
    {
      WireKeepsInv(State());
      assert forall i | i in pending :: i < |vts|;
      hide LinkInv;
      wired := true;
      var waiting := pending;
      pending := [];
      HandOver(waiting);
    }

    method HandOver(waiting: seq<nat>)
      requires forall i | i in waiting :: i < |vts|
      modifies this`vts, this`handed
      ensures handed == old(handed) + waiting && |vts| == |old(vts)|
      ensures forall i | 0 <= i < |vts| :: vts[i] == if i in waiting then old(vts)[i].(handled := true) else old(vts)[i]
    {
      for k := 0 to |waiting|
        invariant handed == old(handed) + waiting[..k] && |vts| == |old(vts)|
        invariant forall i | 0 <= i < |vts| :: vts[i] == if i in waiting[..k] then old(vts)[i].(handled := true) else old(vts)[i]
      {
        assert waiting[..k + 1] == waiting[..k] + [waiting[k]];
        handed := handed + [waiting[k]];
        assert waiting[k] in waiting;
        vts := vts[waiting[k] := vts[waiting[k]].(handled := true)];
      }
      assert waiting[..|waiting|] == waiting;
    }

    method CloseTransport(i: nat) returns (frames: seq<Buffer>)
      requires LinkInv(State()) && i < |vts|
      modifies this
      ensures Sent(State(), frames) == Kick(old(State()), i) && LinkInv(State())
    {
      KickKeepsInv(State(), i);
      var vt := vts[i];
      if vt.closed { return []; }
      frames := if closed || vt.connId >= CONN_ID_LIMIT then [] else [EncodeKick(vt.connId)];
      peers := Unmap(peers, vt.connId);
      vts := vts[i := Report(vt)];
    }

    method Close()
      requires LinkInv(State())
      modifies this
      ensures State() == LinkStep(old(State()), CloseLink) && LinkInv(State())
    {
      closed := true;
    }

    /** The socket closed: every transport still in the map is dropped, and the map emptied. */
    method OnSocketClosed()
      requires LinkInv(State())
      modifies this
      ensures State() == TearDown(old(State())) && LinkInv(State())
    {
      TearDownKeepsInv(State());
      if closed { return; }
      assert forall c | c in peers :: peers[c] < |vts|;
      hide LinkInv;
      closed := true;
      DropMapped();
      peers := map[];
    }

    /** Dropping a transport twice is dropping it once, so the map's order does not matter. */
    method DropMapped()
      requires forall c | c in peers :: peers[c] < |vts|
      modifies this`vts
      ensures |vts| == |old(vts)|
      ensures forall i | 0 <= i < |vts| :: vts[i] == if i in peers.Values then Dropped(old(vts)[i]) else old(vts)[i]
    {
      var rest := peers.Keys;
      var done: set<nat> := {};
      while rest != {}
        invariant rest <= peers.Keys && |vts| == |old(vts)|
        invariant forall c | c in peers && c !in rest :: peers[c] in done
        invariant done <= peers.Values
        invariant forall i | 0 <= i < |vts| :: vts[i] == if i in done then Dropped(old(vts)[i]) else old(vts)[i]
        decreases |rest|
      {
        var c :| c in rest;
        vts := vts[peers[c] := Dropped(vts[peers[c]])];
        done := done + {peers[c]};
        rest := rest - {c};
      }
      assert done == peers.Values;
    }
  }
}
