/** The downward pipe, carried to the peer's message handler (src/main/net/relay-link.ts over the relay's routing). */
module PeerHandlers {
  import opened Bytes
  import opened RelayWire
  import opened ClientWire
  import opened RelayRoom
  import opened RelayLink
  import opened Streams
  import opened Multiplexer
  import MultiplexerProof
  import MultiplexerTheorems
  import RelayProjection
  import PeerLink

  /** Nothing but untagged data and control frames. */
  ghost predicate Untagged(ms: seq<Down>) { forall m | m in ms :: TagOf(m).None? }

  /** No socket but the hosts' carries a tagged frame. */
  ghost predicate PeersUntagged(s: Sys) { forall q | q in s.wires && q !in s.ends :: Untagged(s.wires[q].down) }

  // ----- the relay tags frames for hosts only -----

  /** Tagged frames among these effects go to this socket alone. */
  ghost predicate TagsOnlyFor(out: seq<Effect>, h: Socket) { forall e | e in out && e.Send? && e.sock != h :: TagOf(e.msg).None? }

  lemma {:induction false} UntaggedSent(out: seq<Effect>, h: Socket, q: Socket)
    requires TagsOnlyFor(out, h) && q != h
    ensures Untagged(SentTo(out, q))
  {
    hide TagOf;
    if out != [] {
      var init, last := out[..|out| - 1], out[|out| - 1];
      assert out == init + [last] && last in out;
      UntaggedSent(init, h, q);
    }
  }

  lemma {:induction false} ClaimTags(h: Socket, peers: map<nat, Socket>, bound: nat)
    ensures TagsOnlyFor(ClaimNotices(h, peers, bound), h)
  {
    if bound > 0 { ClaimTags(h, peers, bound - 1); }
  }

  lemma {:induction false} TeardownTags(h: Socket, peers: map<nat, Socket>, bound: nat)
    ensures TagsOnlyFor(TeardownNotices(peers, bound), h)
  {
    if bound > 0 { TeardownTags(h, peers, bound - 1); }
  }

  lemma PeerFrameTags(room: Room, c: nat, p: Socket, buf: Buffer)
    ensures TagsOnlyFor(RelayProjection.PeerOut(room, c, p, buf), room.host)
  {
  }

  lemma HostFrameTags(room: Room, buf: Buffer, now: int)
    ensures TagsOnlyFor(RelayProjection.HostResult(room, buf, now).out, room.host)
  {
    var d := DecodeDataFromHost(buf);
    if d.Some? { HostToPeerHop(0, d.value.payload); }
  }

  // ----- in every reachable state -----

  lemma StillUntagged(s: Sys, s': Sys, out: seq<Effect>, h: Socket)
    requires PeersUntagged(s) && RelayProjection.Delivered(s, s', out) && TagsOnlyFor(out, h)
    requires h in s'.ends && s.ends.Keys <= s'.ends.Keys
    ensures forall q | q in s.wires && q in s'.wires && q !in s'.ends :: Untagged(s'.wires[q].down)
  {
    hide TagsOnlyFor, TagOf;
    forall q | q in s.wires && q in s'.wires && q !in s'.ends ensures Untagged(s'.wires[q].down) {
      UntaggedSent(out, h, q);
      assert Untagged(s.wires[q].down);
    }
  }

  lemma ClientDown(s: Sys, a: Action)
    requires RelayProjection.OfClient(a) && Enabled(s, a)
    ensures Next(s, a).wires.Keys == s.wires.Keys && Next(s, a).ends.Keys == s.ends.Keys
    ensures forall q | q in s.wires :: Next(s, a).wires[q].down == s.wires[q].down
  {
    hide Transmit, Kick, OnFrame, TearDown;
  }

  lemma JoinerHears(s: Sys, p: Socket)
    requires Enabled(s, Joins(p))
    ensures Next(s, Joins(p)).wires[p].down == [Ready(Some(s.room.nextConnId))]
  {
    hide SentTo;
    MultiplexerProof.JoinWires(s, p);
  }

  lemma NextUntagged(s: Sys, a: Action)
    requires PeersUntagged(s) && Enabled(s, a) && s.room.host in s.ends
    ensures PeersUntagged(Next(s, a))
  {
    hide Next, RelayProjection.Delivered, TagsOnlyFor, Untagged;
    var s' := Next(s, a);
    match a
    case Joins(p) =>
      RelayProjection.JoinDelivers(s, p);
      JoinerHears(s, p);
      ReadyIsUntagged(Some(s.room.nextConnId));
      JoinTags(s.room, p);
      StillUntagged(s, s', Join(s.room, p).out, s.room.host);
    case PeerFrame(p) =>
      RelayProjection.PeerFrameDelivers(s, p);
      PeerFrameTags(s.room, s.attached[p], p, s.wires[p].up[s.wires[p].taken]);
      StillUntagged(s, s', RelayProjection.PeerOut(s.room, s.attached[p], p, s.wires[p].up[s.wires[p].taken]), s.room.host);
    case PeerCloses(p) =>
      RelayProjection.PeerCloseDelivers(s, p);
      PeerClosedTags(s.room, s.attached[p]);
      StillUntagged(s, s', PeerClosed(s.room, s.attached[p]).out, s.room.host);
    case HostFrame(now) =>
      RelayProjection.HostFrameDelivers(s, now);
      var buf := s.wires[s.room.host].up[s.wires[s.room.host].taken];
      HostFrameTags(s.room, buf, now);
      StillUntagged(s, s', RelayProjection.HostResult(s.room, buf, now).out, s.room.host);
    case Claims(h) =>
      RelayProjection.ClaimDelivers(s, h);
      ClaimOutTags(s.room, h);
      StillUntagged(s, s', Claim(s.room, h).out, h);
    case Ends =>
      RelayProjection.EndDelivers(s);
      TeardownTags(s.room.host, s.room.peers, s.room.nextConnId);
      EndKeys(s);
      StillUntagged(s, s', Teardown(s.room), s.room.host);
    case _ => ClientDown(s, a);
  }

  lemma EndKeys(s: Sys)
    requires Enabled(s, Ends)
    ensures Next(s, Ends).ends == s.ends && Next(s, Ends).wires.Keys == s.wires.Keys
  {
  }

  lemma ReadyIsUntagged(c: Option<nat>)
    ensures Untagged([Ready(c)])
  {
  }

  lemma JoinTags(room: Room, p: Socket)
    ensures TagsOnlyFor(Join(room, p).out, room.host)
  {
  }

  lemma PeerClosedTags(room: Room, c: nat)
    ensures TagsOnlyFor(PeerClosed(room, c).out, room.host)
  {
  }

  lemma ClaimOutTags(room: Room, h: Socket)
    ensures TagsOnlyFor(Claim(room, h).out, h)
  {
    ClaimTags(h, room.peers, room.nextConnId);
  }

  lemma {:induction false} RunUntagged(s: Sys, run: seq<Action>)
    requires Inv(s) && PeersUntagged(s) && MultiplexerTheorems.Legal(s, run)
    ensures PeersUntagged(MultiplexerTheorems.After(s, run))
    decreases |run|
  {
    if run != [] {
      HostIsEnd(s);
      hide Inv, Enabled, Next, PeersUntagged;
      NextUntagged(s, run[0]);
      MultiplexerTheorems.NextKeepsInv(s, run[0]);
      RunUntagged(Next(s, run[0]), run[1..]);
    }
  }

  lemma HostIsEnd(s: Sys)
    requires Inv(s)
    ensures s.room.host in s.ends
  {
    hide HostOk, FlowsOk, OpenFlows;
  }

  lemma ReachedUntagged(s: Sys)
    requires MultiplexerTheorems.Reached(s)
    ensures PeersUntagged(s)
  {
    var first, run :| MultiplexerTheorems.Legal(Initial(first), run) && s == MultiplexerTheorems.After(Initial(first), run);
    MultiplexerTheorems.InitialInv(first);
    assert PeersUntagged(Initial(first));
    RunUntagged(Initial(first), run);
  }

  // ----- what the handler hears -----

  /** On an untagged stream, the payloads the link hands on are the payloads the peer was sent. */
  lemma {:induction false} PayloadsAreToPeer(ms: seq<Down>)
    requires Untagged(ms)
    ensures PeerLink.Payloads(ms) == ToPeer(ms)
  {
    if ms != [] {
      var init, last := ms[..|ms| - 1], ms[|ms| - 1];
      assert ms == init + [last];
      PayloadsAreToPeer(init);
      PeerHistory(init, last);
      assert last in ms && TagOf(last).None?;
    }
  }

  lemma Slices(d: seq<Down>, a: nat, b: nat, c: nat)
    requires a <= b <= c <= |d|
    ensures ToPeer(d[..b]) == ToPeer(d[..a]) + ToPeer(d[a..b])
    ensures ToPeer(d[a..c]) == ToPeer(d[a..b]) + ToPeer(d[b..c])
  {
    assert d[..b] == d[..a] + d[a..b];
    assert d[a..c] == d[a..b] + d[b..c];
    ToPeerConcat(d[..a], d[a..b]);
    ToPeerConcat(d[a..b], d[b..c]);
  }

  /**
   * Host to peer, to the end. In every reachable state, take any host the room has had and any connId of its
   * tenure, and let the peer behind it have read its socket up to some frame of the tenure, with handlers
   * installed and the link disturbed in whatever way. If its message handler was there when the tenure began, then
   * what it has heard since is, in order, a prefix of exactly what the relay took from that host for that connId;
   * and all of it, once everything the tenure put on the socket is read.
   */
  lemma DownwardToHandler(s: Sys, h: Socket, c: nat, evs: seq<PeerLink.Event>)
    requires MultiplexerTheorems.Reached(s) && h in s.ends && h in s.wires && c in s.ends[h].flows
    requires s.ends[h].flows[c].owner in s.wires
    requires var f := s.ends[h].flows[c];
             var d, r := s.wires[f.owner].down, |PeerLink.Frames(evs)|;
             && f.dbase <= r <= FlowEnd(f, s.wires[f.owner]) <= |d| && PeerLink.Frames(evs) == d[..r]
             && PeerLink.Run(PeerLink.NEW_END, evs).missed <= |ToPeer(d[..f.dbase])|
    ensures var f := s.ends[h].flows[c];
            var d, r := s.wires[f.owner].down, |PeerLink.Frames(evs)|;
            var e := PeerLink.Run(PeerLink.NEW_END, evs);
            var before, since := ToPeer(d[..f.dbase])[e.missed..], ToPeer(d[f.dbase..r]);
            && f.uend <= |s.wires[h].up|
            && e.heard == before + since
            && since <= HostSent(s.wires[h].up[..f.uend], c)
            && (r == FlowEnd(f, s.wires[f.owner]) ==> since == HostSent(s.wires[h].up[..f.uend], c))
  {
    hide MultiplexerTheorems.Reached, ToPeer, HostSent, PeerLink.Run, PeerLink.Frames, PeerLink.Payloads, Untagged;
    var f := s.ends[h].flows[c];
    var d, r := s.wires[f.owner].down, |PeerLink.Frames(evs)|;
    MultiplexerTheorems.DownwardPipe(s, h, c);
    OwnerIsPeer(s, h, c);
    ReachedUntagged(s);
    PrefixUntagged(d, r);
    PayloadsAreToPeer(d[..r]);
    PeerLink.HeardFromListening(evs);
    Slices(d, f.dbase, r, FlowEnd(f, s.wires[f.owner]));
    Tail(ToPeer(d[..f.dbase]), ToPeer(d[f.dbase..r]), PeerLink.Run(PeerLink.NEW_END, evs).missed);
    if r == FlowEnd(f, s.wires[f.owner]) { NothingMore(d, r); }
  }

  lemma Tail(a: seq<Payload>, b: seq<Payload>, k: nat)
    requires k <= |a|
    ensures (a + b)[k..] == a[k..] + b
  {
  }

  lemma NothingMore(d: seq<Down>, r: nat)
    requires r <= |d|
    ensures ToPeer(d[r..r]) == []
  {
    assert d[r..r] == [];
  }

  lemma PrefixUntagged(d: seq<Down>, r: nat)
    requires Untagged(d) && r <= |d|
    ensures Untagged(d[..r])
  {
  }

  lemma OwnerIsPeer(s: Sys, h: Socket, c: nat)
    requires MultiplexerTheorems.Reached(s) && h in s.ends && c in s.ends[h].flows
    ensures s.ends[h].flows[c].owner !in s.ends
  {
    hide MultiplexerTheorems.Reached, Inv, HostOk, FlowOk;
    MultiplexerTheorems.ReachedKeepsInv(s);
    MultiplexerTheorems.HostHasWire(s, h);
    assert OneFlowOk(s.ends[h].flows[c], c, h, s.wires, s.ends.Keys);
  }
}
