/** The two client ends of the relay (src/main/net/relay-link.ts). */
module RelayLink {
  import opened Bytes
  import opened RelayWire
  import opened ClientWire
  import opened RelayRoom
  import opened Arithmetic

  /**
   * A virtual transport: `heard` went to its message handler, `missed` arrived before it had
   * one, `reports` counts calls of its close handler. It gets its handlers when it is handed
   * to the connection callback, synchronously.
   */
  datatype VirtualTransport = VirtualTransport(connId: nat, handled: bool, closed: bool, reports: nat, heard: seq<Payload>, missed: nat)

  /** The host's link. Transports are named by their index in `vts`; `peers` is the link's connId map. */
  datatype HostLink = HostLink(vts: seq<VirtualTransport>, peers: map<nat, nat>, wired: bool, handed: seq<nat>, pending: seq<nat>, closed: bool)

  datatype Sent = Sent(link: HostLink, frames: seq<Buffer>)

  const NEW_LINK := HostLink([], map[], false, [], [], false)

  function Unmap(peers: map<nat, nat>, c: nat): map<nat, nat> {
    map k | k in peers && k != c :: peers[k]
  }

  function Report(vt: VirtualTransport): VirtualTransport {
    vt.(closed := true, reports := vt.reports + if vt.handled then 1 else 0)
  }

  function Dropped(vt: VirtualTransport): VirtualTransport {
    if vt.closed then vt else Report(vt)
  }

  function Hear(vt: VirtualTransport, p: Payload): VirtualTransport {
    if vt.handled then vt.(heard := vt.heard + [p]) else vt.(missed := vt.missed + 1)
  }

  /** Every index the map holds names a transport of that connId that has not closed. */
  ghost predicate LinkInv(l: HostLink) {
    && (forall c | c in l.peers :: l.peers[c] < |l.vts| && l.vts[l.peers[c]].connId == c && !l.vts[l.peers[c]].closed)
    && (forall i | 0 <= i < |l.vts| :: l.vts[i].reports <= if l.vts[i].closed then 1 else 0)
    && |l.handed| + |l.pending| == |l.vts|
    && (forall k | 0 <= k < |l.handed| :: l.handed[k] == k)
    && (forall k | 0 <= k < |l.pending| :: l.pending[k] == |l.handed| + k)
    && (forall i | 0 <= i < |l.vts| :: l.vts[i].handled <==> i < |l.handed|)
    && (forall i | 0 <= i < |l.vts| :: !l.vts[i].handled ==> l.vts[i].heard == [])
    && (l.wired ==> l.pending == [])
    && (!l.wired ==> l.handed == [])
  }

  function OnFrame(l: HostLink, msg: Down): HostLink
    requires forall c | c in l.peers :: l.peers[c] < |l.vts|
  {
    match msg
    case PeerUp(c) =>
      var i := |l.vts|;
      var l' := l.(vts := l.vts + [VirtualTransport(c, l.wired, false, 0, [], 0)], peers := l.peers[c := i]);
      if l.wired then l'.(handed := l.handed + [i]) else l'.(pending := l.pending + [i])
    case PeerDown(c) =>
      if c in l.peers
      then l.(vts := l.vts[l.peers[c] := Dropped(l.vts[l.peers[c]])], peers := Unmap(l.peers, c))
      else l
    case Raw(frame) =>
      var d := DecodeData(frame);
      if d.Some? && d.value.connId.Some? && d.value.connId.value in l.peers
      then var i := l.peers[d.value.connId.value]; l.(vts := l.vts[i := Hear(l.vts[i], d.value.payload)])
      else l
    case _ => l
  }

  /** onConnection: wire the callback and hand over everything that came before it. */
  function Wire(l: HostLink): HostLink {
    l.(wired := true, handed := l.handed + l.pending, pending := [],
       vts := seq(|l.vts|, i requires 0 <= i < |l.vts| => if i in l.pending then l.vts[i].(handled := true) else l.vts[i]))
  }

  /** VirtualTransport.send, while the socket is open. */
  function Transmit(l: HostLink, i: nat, p: Payload): seq<Buffer>
    requires i < |l.vts|
  {
    if l.vts[i].closed || l.closed || l.vts[i].connId >= CONN_ID_LIMIT then [] else [EncodeDataH(l.vts[i].connId, p)]
  }

  /** VirtualTransport.close: kick at the relay, forget the connId, report to the own handler. */
  function Kick(l: HostLink, i: nat): Sent
    requires i < |l.vts|
  {
    var vt := l.vts[i];
    if vt.closed then Sent(l, [])
    else Sent(l.(vts := l.vts[i := Report(vt)], peers := Unmap(l.peers, vt.connId)),
              if l.closed || vt.connId >= CONN_ID_LIMIT then [] else [EncodeKick(vt.connId)])
  }

  function TearDown(l: HostLink): HostLink {
    if l.closed then l
    else l.(closed := true, peers := map[],
            vts := seq(|l.vts|, i requires 0 <= i < |l.vts| => if i in l.peers.Values then Dropped(l.vts[i]) else l.vts[i]))
  }

  lemma PeerUpKeepsInv(l: HostLink, c: nat)
    requires LinkInv(l)
    ensures LinkInv(OnFrame(l, PeerUp(c)))
  {
  }

  lemma PeerDownKeepsInv(l: HostLink, c: nat)
    requires LinkInv(l)
    ensures LinkInv(OnFrame(l, PeerDown(c)))
  {
  }

  lemma RawKeepsInv(l: HostLink, frame: Buffer)
    requires LinkInv(l)
    ensures LinkInv(OnFrame(l, Raw(frame)))
  {
  }

  lemma OnFrameKeepsInv(l: HostLink, msg: Down)
    requires LinkInv(l)
    ensures LinkInv(OnFrame(l, msg))
  {
    match msg
    case PeerUp(c) => PeerUpKeepsInv(l, c);
    case PeerDown(c) => PeerDownKeepsInv(l, c);
    case Raw(frame) => RawKeepsInv(l, frame);
    case _ =>
  }

  lemma WireKeepsInv(l: HostLink)
    requires LinkInv(l)
    ensures LinkInv(Wire(l))
  {
    forall i | |l.handed| <= i < |l.vts| ensures i in l.pending {
      assert l.pending[i - |l.handed|] == i;
    }
  }

  lemma KickKeepsInv(l: HostLink, i: nat)
    requires LinkInv(l) && i < |l.vts|
    ensures LinkInv(Kick(l, i).link)
  {
  }

  lemma TearDownKeepsInv(l: HostLink)
    requires LinkInv(l)
    ensures LinkInv(TearDown(l))
  {
  }

  /** Once a transport has closed, no frame reaches it and it never reports again. */
  lemma ClosedIsSilent(l: HostLink, msg: Down, i: nat, j: nat)
    requires LinkInv(l) && i < |l.vts| && j < |l.vts| && l.vts[i].closed
    ensures OnFrame(l, msg).vts[i] == l.vts[i]
    ensures Kick(l, j).link.vts[i] == l.vts[i] && TearDown(l).vts[i] == l.vts[i]
    ensures l.vts[i].reports <= 1 && Transmit(l, i, Payload(true, [])) == []
  {
  }

  // ----- events of a whole link -----

  datatype LinkEvent = Frame(msg: Down) | Listen | CloseTransport(i: nat) | CloseLink | SocketClosed

  function LinkStep(l: HostLink, ev: LinkEvent): HostLink
    requires LinkInv(l)
  {
    match ev
    case Frame(msg) => OnFrame(l, msg)
    case Listen => Wire(l)
    case CloseTransport(i) => if i < |l.vts| then Kick(l, i).link else l
    case CloseLink => l.(closed := true)
    case SocketClosed => TearDown(l)
  }

  lemma LinkStepKeepsInv(l: HostLink, ev: LinkEvent)
    requires LinkInv(l)
    ensures LinkInv(LinkStep(l, ev))
  {
    match ev
    case Frame(msg) => OnFrameKeepsInv(l, msg);
    case Listen => WireKeepsInv(l);
    case CloseTransport(i) => if i < |l.vts| { KickKeepsInv(l, i); }
    case CloseLink =>
    case SocketClosed => TearDownKeepsInv(l);
  }

  function LinkRun(l: HostLink, evs: seq<LinkEvent>): (l': HostLink)
    requires LinkInv(l)
    ensures LinkInv(l')
    decreases |evs|
  {
    if evs == [] then l
    else LinkStepKeepsInv(l, evs[0]); LinkRun(LinkStep(l, evs[0]), evs[1..])
  }

  /** The connIds of the PEER_UPs of a run, in arrival order. */
  function Arrivals(evs: seq<LinkEvent>): seq<nat> {
    if evs == [] then [] else Arrival(evs[0]) + Arrivals(evs[1..])
  }

  function Arrival(ev: LinkEvent): seq<nat> {
    if ev.Frame? && ev.msg.PeerUp? then [ev.msg.id] else []
  }

  function ConnIds(vts: seq<VirtualTransport>): seq<nat> {
    seq(|vts|, i requires 0 <= i < |vts| => vts[i].connId)
  }

  lemma StepAddsArrival(l: HostLink, ev: LinkEvent)
    requires LinkInv(l)
    ensures ConnIds(LinkStep(l, ev).vts) == ConnIds(l.vts) + Arrival(ev)
  {
  }

  lemma StaysWired(l: HostLink, ev: LinkEvent)
    requires LinkInv(l)
    ensures l.wired ==> LinkStep(l, ev).wired
  {
  }

  lemma {:induction false} TransportsAreArrivals(l: HostLink, evs: seq<LinkEvent>)
    requires LinkInv(l)
    ensures ConnIds(LinkRun(l, evs).vts) == ConnIds(l.vts) + Arrivals(evs)
    ensures l.wired ==> LinkRun(l, evs).wired
    decreases |evs|
  {
    hide LinkInv, LinkStep, ConnIds, Arrival;
    if evs == [] {
      assert ConnIds(l.vts) + [] == ConnIds(l.vts);
    } else {
      var l', first, rest := LinkStep(l, evs[0]), Arrival(evs[0]), Arrivals(evs[1..]);
      LinkStepKeepsInv(l, evs[0]);
      StaysWired(l, evs[0]);
      StepAddsArrival(l, evs[0]);
      TransportsAreArrivals(l', evs[1..]);
      assert LinkRun(l, evs) == LinkRun(l', evs[1..]);
      Regroup(ConnIds(l.vts), first, rest);
    }
  }

  /**
   * Whenever the callback is wired, before or after the PEER_UPs or between them, each
   * PEER_UP is handed over exactly once and in arrival order.
   */
  lemma HandedOnceInOrder(evs: seq<LinkEvent>)
    requires Listen in evs
    ensures var l := LinkRun(NEW_LINK, evs);
            ConnIds(l.vts) == Arrivals(evs) && l.handed == seq(|l.vts|, i => i)
  {
    var k :| 0 <= k < |evs| && evs[k] == Listen;
    TransportsAreArrivals(NEW_LINK, evs);
    WiredAfterListen(NEW_LINK, evs, k);
    var l := LinkRun(NEW_LINK, evs);
    assert l.handed + l.pending == l.handed;
  }

  lemma {:induction false} WiredAfterListen(l: HostLink, evs: seq<LinkEvent>, k: nat)
    requires LinkInv(l) && k < |evs| && evs[k] == Listen
    ensures LinkRun(l, evs).wired
    decreases |evs|
  {
    LinkStepKeepsInv(l, evs[0]);
    if k == 0 {
      TransportsAreArrivals(LinkStep(l, evs[0]), evs[1..]);
    } else {
      WiredAfterListen(LinkStep(l, evs[0]), evs[1..], k - 1);
    }
  }

  /** A transport that has closed stays closed through every later run: it hears nothing more and never reports again. */
  lemma {:induction false} ClosedForGood(l: HostLink, evs: seq<LinkEvent>, i: nat)
    requires LinkInv(l) && i < |l.vts| && l.vts[i].closed
    ensures var l' := LinkRun(l, evs);
            && i < |l'.vts| && l'.vts[i].closed && l'.vts[i].heard == l.vts[i].heard && l'.vts[i].missed == l.vts[i].missed
            && l'.vts[i].reports == l.vts[i].reports <= 1
    decreases |evs|
  {
    assert l.vts[i].reports <= 1;
    hide LinkInv, LinkStep;
    if evs != [] {
      ClosedStepIsSilent(l, evs[0], i);
      ClosedForGood(LinkStep(l, evs[0]), evs[1..], i);
    }
  }

  lemma ClosedStepIsSilent(l: HostLink, ev: LinkEvent, i: nat)
    requires LinkInv(l) && i < |l.vts| && l.vts[i].closed
    ensures var l' := LinkStep(l, ev);
            && LinkInv(l') && i < |l'.vts| && l'.vts[i].closed && l.vts[i].reports <= 1
            && l'.vts[i].heard == l.vts[i].heard && l'.vts[i].missed == l.vts[i].missed && l'.vts[i].reports == l.vts[i].reports
  {
    LinkStepKeepsInv(l, ev);
    if ev.Frame? { ClosedIsSilent(l, ev.msg, i, i); }
    if ev.CloseTransport? && ev.i < |l.vts| { ClosedIsSilent(l, Pong, i, ev.i); }
    if ev.SocketClosed? { ClosedIsSilent(l, Pong, i, i); }
    hide OnFrame, Kick, TearDown;
  }

  // ----- frames that come before anyone listens -----

  /**
   * A data frame for a connId the link knows reaches that transport's handler exactly when the connection callback is
   * wired by then, and nobody else; a transport announced and written to before that is handed over without those
   * frames. Any other bytes, or a connId it does not know, change nothing.
   */
  lemma HeardExactlyWhenWired(l: HostLink, frame: Buffer, c: nat, p: Payload)
    requires LinkInv(l)
    ensures DecodeData(frame) == Some(Data(Some(c), p)) && c in l.peers ==>
              var i, l' := l.peers[c], OnFrame(l, Raw(frame));
              && i < |l.vts|
              && l' == l.(vts := l.vts[i := l'.vts[i]])
              && l'.vts[i] == (if l.wired then l.vts[i].(heard := l.vts[i].heard + [p]) else l.vts[i].(missed := l.vts[i].missed + 1))
    ensures (forall d, q | d in l.peers :: DecodeData(frame) != Some(Data(Some(d), q))) ==> OnFrame(l, Raw(frame)) == l
  {
    var d := DecodeData(frame);
    if d.Some? && d.value.connId.Some? && d.value.connId.value in l.peers {
      assert d == Some(Data(Some(d.value.connId.value), d.value.payload));
    }
  }

  lemma StepMissesNothing(l: HostLink, ev: LinkEvent, i: nat)
    requires LinkInv(l) && l.wired && i < |l.vts|
    ensures var l' := LinkStep(l, ev); l'.wired && i < |l'.vts| && l'.vts[i].missed == l.vts[i].missed
  {
  }

  /** Once the callback is wired, no transport misses anything more. */
  lemma {:induction false} WiredMissesNothing(l: HostLink, evs: seq<LinkEvent>, i: nat)
    requires LinkInv(l) && l.wired && i < |l.vts|
    ensures i < |LinkRun(l, evs).vts| && LinkRun(l, evs).vts[i].missed == l.vts[i].missed
    decreases |evs|
  {
    hide LinkInv, LinkStep;
    if evs != [] {
      StepMissesNothing(l, evs[0], i);
      LinkStepKeepsInv(l, evs[0]);
      WiredMissesNothing(LinkStep(l, evs[0]), evs[1..], i);
    }
  }

  /** A peer that leaves before the callback is wired has its transport handed over closed, and its close is never reported. */
  lemma GoneBeforeWiringIsSilent(l: HostLink, c: nat)
    requires LinkInv(l) && !l.wired && c in l.peers
    ensures var l' := Wire(OnFrame(l, PeerDown(c)));
            var i := l.peers[c];
            i in l'.handed && l'.vts[i].handled && l'.vts[i].closed && l'.vts[i].reports == 0
  {
    var i := l.peers[c];
    var before := OnFrame(l, PeerDown(c));
    assert before.pending[i] == i;
    assert i in before.pending;
    assert l.vts[i].reports == 0 && !l.vts[i].handled;
  }

  // ----- who closes a transport, and who is told -----

  /** What closes the transport in place i of a link: its own PEER_DOWN, its own close, or the end of the socket while it is mapped. */
  predicate Closes(l: HostLink, ev: LinkEvent, i: nat) {
    match ev
    case Frame(PeerDown(c)) => c in l.peers && l.peers[c] == i
    case CloseTransport(j) => j == i
    case SocketClosed => !l.closed && i in l.peers.Values
    case _ => false
  }

  /**
   * One event, one transport: an open transport closes exactly on what closes it, its handler is then called once if
   * it has one, and nothing else ever calls it.
   */
  lemma ReportsExactlyWhen(l: HostLink, ev: LinkEvent, i: nat)
    requires LinkInv(l) && i < |l.vts|
    ensures var l' := LinkStep(l, ev);
            && i < |l'.vts|
            && (l'.vts[i].closed <==> l.vts[i].closed || Closes(l, ev, i))
            && l'.vts[i].reports == l.vts[i].reports + (if !l.vts[i].closed && Closes(l, ev, i) && l.vts[i].handled then 1 else 0)
            && (l'.vts[i].handled <==> l.vts[i].handled || ev == Listen)
  {
    match ev
    case Listen => if !l.vts[i].handled { assert l.pending[i - |l.handed|] == i; }
    case Frame(msg) =>
    case CloseTransport(j) =>
    case CloseLink =>
    case SocketClosed =>
  }

  /** At some step of the run the transport was open and handed over, and the step closed it. */
  ghost predicate ClosedWhileHanded(evs: seq<LinkEvent>, i: nat) {
    exists k | 0 <= k < |evs| :: ClosesAt(LinkRun(NEW_LINK, evs[..k]), evs[k], i)
  }

  ghost predicate ClosesAt(l: HostLink, ev: LinkEvent, i: nat) {
    i < |l.vts| && l.vts[i].handled && !l.vts[i].closed && Closes(l, ev, i)
  }

  lemma {:induction false} LinkRunSnoc(l: HostLink, evs: seq<LinkEvent>, ev: LinkEvent)
    requires LinkInv(l)
    ensures LinkRun(l, evs + [ev]) == LinkStep(LinkRun(l, evs), ev)
    decreases |evs|
  {
    hide LinkInv, LinkStep;
    LinkStepKeepsInv(l, ev);
    if evs == [] {
      assert [] + [ev] == [ev] && [ev][1..] == [];
    } else {
      assert (evs + [ev])[0] == evs[0] && (evs + [ev])[1..] == evs[1..] + [ev];
      LinkStepKeepsInv(l, evs[0]);
      LinkRunSnoc(LinkStep(l, evs[0]), evs[1..], ev);
    }
  }

  lemma NewTransport(l: HostLink, ev: LinkEvent)
    requires LinkInv(l)
    ensures var l' := LinkStep(l, ev);
            |l.vts| <= |l'.vts| && forall i | |l.vts| <= i < |l'.vts| :: !l'.vts[i].closed && l'.vts[i].reports == 0
  {
  }

  /**
   * Over any run, a transport has reported its close once if it closed after it was handed over, by its peer's
   * leaving, its own close or the end of the socket; and never otherwise.
   */
  lemma {:induction false} ReportedExactlyWhen(evs: seq<LinkEvent>, i: nat)
    requires i < |LinkRun(NEW_LINK, evs).vts|
    ensures LinkRun(NEW_LINK, evs).vts[i].reports == if ClosedWhileHanded(evs, i) then 1 else 0
    ensures ClosedWhileHanded(evs, i) ==> LinkRun(NEW_LINK, evs).vts[i].closed
    decreases |evs|
  {
    hide LinkInv, LinkStep, LinkRun, ClosesAt, Closes;
    NothingYet();
    if evs != [] {
      var init, ev := evs[..|evs| - 1], evs[|evs| - 1];
      var l := LinkRun(NEW_LINK, init);
      assert evs == init + [ev];
      LinkRunSnoc(NEW_LINK, init, ev);
      NewTransport(l, ev);
      ClosedSnoc(init, ev, i);
      if i < |l.vts| {
        ReportedExactlyWhen(init, i);
        ReportsExactlyWhen(l, ev, i);
        ClosesAtMeans(l, ev, i);
      } else {
        NotYetThere(init, i);
        ClosesAtMeans(l, ev, i);
      }
    }
  }

  lemma NothingYet()
    ensures LinkInv(NEW_LINK) && LinkRun(NEW_LINK, []).vts == []
  {
  }

  lemma ClosesAtMeans(l: HostLink, ev: LinkEvent, i: nat)
    ensures ClosesAt(l, ev, i) <==> i < |l.vts| && l.vts[i].handled && !l.vts[i].closed && Closes(l, ev, i)
  {
  }

  lemma ClosedSnoc(evs: seq<LinkEvent>, ev: LinkEvent, i: nat)
    ensures ClosedWhileHanded(evs + [ev], i) <==> ClosedWhileHanded(evs, i) || ClosesAt(LinkRun(NEW_LINK, evs), ev, i)
  {
    hide LinkRun, ClosesAt, LinkInv;
    NothingYet();
    var all := evs + [ev];
    assert forall k | 0 <= k < |evs| :: all[..k] == evs[..k] && all[k] == evs[k];
    assert all[..|evs|] == evs && all[|evs|] == ev;
    if ClosesAt(LinkRun(NEW_LINK, evs), ev, i) { assert ClosesAt(LinkRun(NEW_LINK, all[..|evs|]), all[|evs|], i); }
    if k :| 0 <= k < |evs| && ClosesAt(LinkRun(NEW_LINK, evs[..k]), evs[k], i) {
      assert ClosesAt(LinkRun(NEW_LINK, all[..k]), all[k], i);
    }
  }

  lemma {:induction false} NotYetThere(evs: seq<LinkEvent>, i: nat)
    requires i >= |LinkRun(NEW_LINK, evs).vts|
    ensures !ClosedWhileHanded(evs, i)
    decreases |evs|
  {
    hide LinkInv, LinkStep, LinkRun, ClosesAt, Closes;
    if evs != [] {
      var init, ev := evs[..|evs| - 1], evs[|evs| - 1];
      assert evs == init + [ev];
      NothingYet();
      LinkRunSnoc(NEW_LINK, init, ev);
      NewTransport(LinkRun(NEW_LINK, init), ev);
      NotYetThere(init, i);
      ClosedSnoc(init, ev, i);
      ClosesAtMeans(LinkRun(NEW_LINK, init), ev, i);
    }
  }

  /** The connIds of a link's transports are distinct, and its map holds exactly the open ones. */
  ghost predicate MapsTheOpen(l: HostLink) {
    && (forall i, j | 0 <= i < j < |l.vts| :: l.vts[i].connId != l.vts[j].connId)
    && forall i | 0 <= i < |l.vts| && !l.vts[i].closed :: l.vts[i].connId in l.peers && l.peers[l.vts[i].connId] == i
  }

  ghost predicate Distinct(ids: seq<nat>) { forall i, j | 0 <= i < j < |ids| :: ids[i] != ids[j] }

  lemma PeerUpMaps(l: HostLink, c: nat)
    requires LinkInv(l) && MapsTheOpen(l) && forall i | 0 <= i < |l.vts| :: l.vts[i].connId != c
    ensures MapsTheOpen(OnFrame(l, PeerUp(c)))
  {
  }

  lemma StepMapsTheOpen(l: HostLink, ev: LinkEvent)
    requires LinkInv(l) && MapsTheOpen(l) && Distinct(ConnIds(l.vts) + Arrival(ev))
    ensures MapsTheOpen(LinkStep(l, ev))
  {
    hide LinkInv;
    if ev.Frame? && ev.msg.PeerUp? {
      var ids := ConnIds(l.vts) + [ev.msg.id];
      assert ids[|l.vts|] == ev.msg.id && forall i | 0 <= i < |l.vts| :: ids[i] == l.vts[i].connId;
      PeerUpMaps(l, ev.msg.id);
    } else {
      OtherMaps(l, ev);
    }
  }

  /** What neither closes a transport nor announces another leaves it in the map. */
  lemma StaysMapped(l: HostLink, ev: LinkEvent, i: nat)
    requires LinkInv(l) && MapsTheOpen(l) && i < |l.vts| && !l.vts[i].closed && !Closes(l, ev, i) && Arrival(ev) == []
    ensures var l' := LinkStep(l, ev); l.vts[i].connId in l'.peers && l'.peers[l.vts[i].connId] == i
  {
    hide Hear, Report;
    match ev
    case CloseTransport(j) => if j < |l.vts| && j != i { assert l.vts[j].connId != l.vts[i].connId; }
    case Frame(PeerDown(c)) =>
    case SocketClosed =>
    case _ =>
  }

  lemma OtherMaps(l: HostLink, ev: LinkEvent)
    requires LinkInv(l) && MapsTheOpen(l) && Arrival(ev) == []
    ensures MapsTheOpen(LinkStep(l, ev))
  {
    hide LinkStep, LinkInv, Closes;
    var l' := LinkStep(l, ev);
    StepAddsArrival(l, ev);
    assert |l'.vts| == |ConnIds(l'.vts)| == |l.vts|;
    forall i | 0 <= i < |l.vts| ensures l'.vts[i].connId == l.vts[i].connId && (!l'.vts[i].closed ==> l.vts[i].connId in l'.peers && l'.peers[l.vts[i].connId] == i) {
      assert ConnIds(l'.vts)[i] == ConnIds(l.vts)[i];
      ReportsExactlyWhen(l, ev, i);
      if !l'.vts[i].closed { StaysMapped(l, ev, i); }
    }
  }

  lemma FirstOnesDistinct(ids: seq<nat>, more: seq<nat>)
    requires Distinct(ids + more)
    ensures Distinct(ids)
  {
    assert forall i | 0 <= i < |ids| :: (ids + more)[i] == ids[i];
  }

  lemma EmptyMaps()
    ensures MapsTheOpen(NEW_LINK) && LinkInv(NEW_LINK) && LinkRun(NEW_LINK, []) == NEW_LINK && !NEW_LINK.wired && !NEW_LINK.closed
  {
  }

  /** While no connId is announced twice, a link's map holds exactly its open transports, each under its connId. */
  lemma {:induction false} MapsTheOpenOnRuns(evs: seq<LinkEvent>)
    requires Distinct(Arrivals(evs))
    ensures MapsTheOpen(LinkRun(NEW_LINK, evs))
    decreases |evs|
  {
    hide LinkInv, LinkStep, MapsTheOpen, Distinct, ConnIds, Arrivals, LinkRun;
    EmptyMaps();
    if evs != [] {
      var init, ev := evs[..|evs| - 1], evs[|evs| - 1];
      assert evs == init + [ev];
      var l := LinkRun(NEW_LINK, init);
      LinkRunSnoc(NEW_LINK, init, ev);
      RunListsArrivals(evs);
      RunListsArrivals(init);
      StepAddsArrival(l, ev);
      FirstOnesDistinct(ConnIds(l.vts), Arrival(ev));
      MapsTheOpenOnRuns(init);
      StepMapsTheOpen(l, ev);
    }
  }

  lemma RunListsArrivals(evs: seq<LinkEvent>)
    ensures ConnIds(LinkRun(NEW_LINK, evs).vts) == Arrivals(evs)
  {
    hide LinkInv, LinkStep, LinkRun, Arrivals;
    EmptyMaps();
    TransportsAreArrivals(NEW_LINK, evs);
    assert ConnIds(NEW_LINK.vts) == [];
    assert [] + Arrivals(evs) == Arrivals(evs);
  }

  /** On such a run a peer's leaving, or the socket's end, closes an open handed transport and calls its handler, once and for all. */
  lemma DepartureIsReported(evs: seq<LinkEvent>, i: nat, ev: LinkEvent)
    requires Distinct(Arrivals(evs)) && i < |LinkRun(NEW_LINK, evs).vts|
    requires var l := LinkRun(NEW_LINK, evs); l.wired && !l.vts[i].closed
    requires var l := LinkRun(NEW_LINK, evs); ev == Frame(PeerDown(l.vts[i].connId)) || ev == CloseTransport(i) || (ev == SocketClosed && !l.closed)
    ensures var l' := LinkRun(NEW_LINK, evs + [ev]); i < |l'.vts| && l'.vts[i].closed && l'.vts[i].reports == 1
  {
    hide LinkStep, LinkRun, ClosedWhileHanded;
    EmptyMaps();
    MapsTheOpenOnRuns(evs);
    LinkRunSnoc(NEW_LINK, evs, ev);
    var l := LinkRun(NEW_LINK, evs);
    assert l.vts[i].handled && l.vts[i].reports == 0;
    ReportsExactlyWhen(l, ev, i);
    assert l.peers[l.vts[i].connId] in l.peers.Values;
  }

  // ----- what goes out -----

  /** An open transport of an open link sends each payload as one frame under its connId; a closed one sends nothing. */
  lemma TransmitsExactlyWhen(l: HostLink, i: nat, p: Payload)
    requires i < |l.vts| && l.vts[i].connId < CONN_ID_LIMIT
    ensures Transmit(l, i, p) == if l.vts[i].closed || l.closed then [] else [EncodeDataH(l.vts[i].connId, p)]
  {
  }

  /** Closing an open transport kicks its connId at the relay while the link is open; closing it again does nothing. */
  lemma ClosingKicks(l: HostLink, i: nat)
    requires i < |l.vts| && l.vts[i].connId < CONN_ID_LIMIT
    ensures l.vts[i].closed ==> Kick(l, i) == Sent(l, [])
    ensures !l.vts[i].closed ==>
              var r := Kick(l, i);
              && r.frames == (if l.closed then [] else [EncodeKick(l.vts[i].connId)])
              && |r.link.vts| == |l.vts| && r.link.vts[i].closed && l.vts[i].connId !in r.link.peers
              && forall j | 0 <= j < |l.vts| && j != i :: r.link.vts[j] == l.vts[j]
  {
  }

  lemma StepWires(l: HostLink, ev: LinkEvent)
    requires LinkInv(l)
    ensures LinkStep(l, ev).wired <==> l.wired || ev == Listen
    ensures LinkStep(l, ev).closed <==> l.closed || ev == CloseLink || ev == SocketClosed
  {
  }

  /** A link is wired from the first registration on, and closed from its own close or the end of the socket on. */
  lemma {:induction false} WiredAndClosedExactlyWhen(evs: seq<LinkEvent>)
    ensures LinkRun(NEW_LINK, evs).wired <==> Listen in evs
    ensures LinkRun(NEW_LINK, evs).closed <==> CloseLink in evs || SocketClosed in evs
    decreases |evs|
  {
    hide LinkInv, LinkStep, LinkRun;
    EmptyMaps();
    if evs != [] {
      var init, ev := evs[..|evs| - 1], evs[|evs| - 1];
      assert evs == init + [ev];
      LinkRunSnoc(NEW_LINK, init, ev);
      WiredAndClosedExactlyWhen(init);
      StepWires(LinkRun(NEW_LINK, init), ev);
    }
  }
}
