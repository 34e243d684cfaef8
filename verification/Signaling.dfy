/**
 * The host's roster, the deltas it sends and the mirrors its peers keep
 * (src/main/signaling/server.ts and client.ts), as steps over one queue per peer.
 */
module Signaling {
  import opened Bytes
  import opened Rosters
  import Succession

  datatype RejectReason = RoomFull | DuplicateNickname

  datatype Msg =
    | Joined(peerId: string, joinSeq: nat, epoch: nat, roster: seq<Entry>)
    | RosterUpdate(added: seq<Entry>, removed: seq<string>, changed: seq<Entry>)
    | HostTransfer(successor: string, nextEpoch: nat)
    | Other

  datatype Host = Host(
    hostId: string,
    epoch: nat,
    maxParticipants: nat,
    entries: seq<Entry>,
    nextJoinSeq: nat,
    links: set<string>,
    closing: bool
  )

  /** A peer's copy of the roster: not joined yet, refused the epoch it was offered, or following. */
  datatype Mirror = Waiting | Stale | Holding(roster: seq<Entry>)

  datatype Peer = Peer(minEpoch: nat, mirror: Mirror, queue: seq<Msg>)

  type Peers = map<string, Peer>

  datatype System = System(host: Host, peers: Peers)

  datatype Action =
    | Admit(peerId: string, nickname: string, minEpoch: nat)
    | PeerGone(peerId: string)
    | ProbeSettles(peerId: string, reachable: bool, endpoint: Endpoint)
    | Transfer
    | CloseForHandoff
    | Say(peerId: string)
    | Read(peerId: string)

  // ----- the client -----

  function ApplyUpdate(roster: seq<Entry>, u: Msg): seq<Entry>
    requires u.RosterUpdate?
  {
    Snapshot(Replaced(Kept(roster, u.removed), u.changed) + u.added)
  }

  function Apply(m: Mirror, minEpoch: nat, msg: Msg): Mirror {
    match m
    case Waiting => if msg.Joined? then (if msg.epoch < minEpoch then Stale else Holding(msg.roster)) else Waiting
    case Stale => Stale
    case Holding(roster) => if msg.RosterUpdate? then Holding(ApplyUpdate(roster, msg)) else m
  }

  /** What the mirror becomes once everything queued has been read. */
  function Fold(m: Mirror, minEpoch: nat, queue: seq<Msg>): Mirror
    decreases |queue|
  {
    if queue == [] then m else Fold(Apply(m, minEpoch, queue[0]), minEpoch, queue[1..])
  }

  // ----- the host -----

  function Candidates(s: seq<Entry>): seq<Succession.Candidate> {
    seq(|s|, i requires 0 <= i < |s| => Candidate(s[i]))
  }

  function Candidate(e: Entry): Succession.Candidate {
    Succession.Candidate(e.peerId, e.joinSeq, e.inboundVerified, e.isHost, true)
  }

  function Successor(s: seq<Entry>): Option<string> {
    Succession.DesignatedHeir(Candidates(Snapshot(s)))
  }

  function HostEntry(id: string, nickname: string): Entry {
    Entry(id, nickname, 0, true, true, None, None)
  }

  function NewcomerEntry(id: string, nickname: string, joinSeq: nat): Entry {
    Entry(id, nickname, joinSeq, false, false, None, None)
  }

  predicate NameTaken(s: seq<Entry>, nickname: string, fold: string -> string) {
    exists e | e in s :: fold(e.nickname) == fold(nickname)
  }

  /** Why a join is refused, the capacity being looked at first. */
  function Refusal(h: Host, nickname: string, fold: string -> string): Option<RejectReason> {
    if |h.entries| >= h.maxParticipants then Some(RoomFull)
    else if NameTaken(h.entries, nickname, fold) then Some(DuplicateNickname)
    else None
  }

  function Admitted(h: Host, id: string, nickname: string): Host {
    h.(entries := Put(h.entries, NewcomerEntry(id, nickname, h.nextJoinSeq)),
       nextJoinSeq := h.nextJoinSeq + 1,
       links := h.links + {id})
  }

  function Dropped(h: Host, id: string): Host {
    h.(entries := Kept(h.entries, [id]), links := h.links - {id})
  }

  function Probed(e: Entry, reachable: bool, endpoint: Endpoint): Entry {
    e.(inboundVerified := reachable, inboundEndpoint := if reachable then Some(endpoint) else None)
  }

  function Sent(peers: Peers, to: set<string>, msg: Msg): Peers {
    map p | p in peers :: if p in to then peers[p].(queue := peers[p].queue + [msg]) else peers[p]
  }

  function Next(s: System, a: Action, fold: string -> string): System {
    var h := s.host;
    match a
    case Admit(id, nickname, minEpoch) =>
      if Refusal(h, nickname, fold).Some? then s
      else
        var e := NewcomerEntry(id, nickname, h.nextJoinSeq);
        var h' := Admitted(h, id, nickname);
        System(h', Sent(s.peers, h'.links - {id}, RosterUpdate([e], [], []))
                     [id := Peer(minEpoch, Waiting, [Joined(id, e.joinSeq, h.epoch, Snapshot(h'.entries))])])
    case PeerGone(id) =>
      if h.closing then s
      else
        var h' := Dropped(h, id);
        if !Has(h.entries, id) then System(h', s.peers)
        else System(h', Sent(s.peers, h'.links, RosterUpdate([], [id], [])))
    case ProbeSettles(id, reachable, endpoint) =>
      if id !in h.links || !Has(h.entries, id) then s
      else
        var e := Probed(Get(h.entries, id).value, reachable, endpoint);
        System(h.(entries := Put(h.entries, e)), Sent(s.peers, h.links, RosterUpdate([], [], [e])))
    case Transfer =>
      var heir := Successor(h.entries);
      if heir.None? then System(h.(closing := true, links := {}), s.peers)
      else System(h.(closing := true), Sent(s.peers, h.links, HostTransfer(heir.value, h.epoch + 1)))
    case CloseForHandoff => System(h.(closing := true, links := {}), s.peers)
    case Say(id) => s.(peers := Sent(s.peers, h.links * {id}, Other))
    case Read(id) =>
      if id !in s.peers || s.peers[id].queue == [] then s
      else
        var p := s.peers[id];
        s.(peers := s.peers[id := p.(mirror := Apply(p.mirror, p.minEpoch, p.queue[0]), queue := p.queue[1..])])
  }

  /** The random ids are distinct, and only a peer's own connection can report it gone. */
  predicate Enabled(s: System, a: Action) {
    match a
    case Admit(id, _, _) => id !in s.peers && id != s.host.hostId
    case PeerGone(id) => id in s.peers
    case _ => true
  }

  function Opened(hostId: string, nickname: string, epoch: nat, maxParticipants: nat): System {
    System(Host(hostId, epoch, maxParticipants, [HostEntry(hostId, nickname)], 1, {}, false), map[])
  }

  /**
   * A join is refused as the room being full exactly when it is, and else for its nickname exactly when an entry folds
   * to the same one; a welcome newcomer joins last, unverified and no host, and is told so at once.
   */
  lemma AdmittedExactlyWhen(s: System, id: string, nickname: string, minEpoch: nat, fold: string -> string)
    requires id !in s.peers && !Has(s.host.entries, id)
    ensures var h, r := s.host, Next(s, Admit(id, nickname, minEpoch), fold);
            var full, taken := |h.entries| >= h.maxParticipants, exists e | e in h.entries :: fold(e.nickname) == fold(nickname);
            && (Refusal(h, nickname, fold) == Some(RoomFull) <==> full)
            && (Refusal(h, nickname, fold) == Some(DuplicateNickname) <==> !full && taken)
            && (full || taken ==> r == s)
            && (!full && !taken ==>
                  var e := Entry(id, nickname, h.nextJoinSeq, false, false, None, None);
                  && r.host.entries == h.entries + [e] && r.host.nextJoinSeq == h.nextJoinSeq + 1 && r.host.links == h.links + {id}
                  && id in r.peers && r.peers[id] == Peer(minEpoch, Waiting, [Joined(id, h.nextJoinSeq, h.epoch, Snapshot(r.host.entries))])
                  && forall p | p in s.peers && p in h.links && p != id ::
                       p in r.peers && r.peers[p].queue == s.peers[p].queue + [RosterUpdate([e], [], [])])
  {
  }

  // ----- what every reachable state keeps -----

  /** One host, distinct peers, sequence numbers and names, and never more than the room allows. */
  ghost predicate TableInv(s: seq<Entry>, nextJoinSeq: nat, hostId: string, max: nat, fold: string -> string) {
    && InJoinOrder(s) && DistinctPeers(s) && DistinctNames(s, fold) && OneHost(s, hostId)
    && (forall i | 0 <= i < |s| :: s[i].joinSeq < nextJoinSeq)
    && (|s| == 1 || |s| <= max) && EndpointsMatch(s)
  }

  /** A peer has a known endpoint exactly when its inbound path was verified. */
  ghost predicate EndpointsMatch(s: seq<Entry>) {
    forall i | 0 <= i < |s| && !s[i].isHost :: s[i].inboundVerified <==> s[i].inboundEndpoint.Some?
  }

  /** Only listed peers are linked and, until the host closes, each of them is. */
  ghost predicate LinksInv(ids: set<string>, links: set<string>, hostId: string, closing: bool) {
    links <= ids - {hostId} && (!closing ==> links == ids - {hostId})
  }

  ghost predicate RosterInv(h: Host, fold: string -> string) {
    && TableInv(h.entries, h.nextJoinSeq, h.hostId, h.maxParticipants, fold)
    && LinksInv(PeerIds(h.entries), h.links, h.hostId, h.closing)
  }

  /** Once the open connection p has read what is on its way, it holds the host's snapshot (or has refused the epoch). */
  ghost predicate WillAgree(h: Host, p: Peer) {
    Fold(p.mirror, p.minEpoch, p.queue) == if p.minEpoch <= h.epoch then Holding(Snapshot(h.entries)) else Stale
  }

  ghost predicate AllWillAgree(s: System) {
    forall p | p in s.host.links :: p in s.peers && WillAgree(s.host, s.peers[p])
  }

  ghost predicate Inv(s: System, fold: string -> string) {
    && RosterInv(s.host, fold) && AllWillAgree(s)
    && PeerIds(s.host.entries) <= s.peers.Keys + {s.host.hostId}
    && s.host.hostId !in s.peers
  }

  ghost predicate Reachable(s: System, fold: string -> string, run: seq<Action>, from: System)
    decreases |run|
  {
    if run == [] then s == from
    else Enabled(from, run[0]) && Reachable(s, fold, run[1..], Next(from, run[0], fold))
  }

  // ----- folding -----

  lemma {:induction false} FoldSnoc(m: Mirror, minEpoch: nat, queue: seq<Msg>, msg: Msg)
    ensures Fold(m, minEpoch, queue + [msg]) == Apply(Fold(m, minEpoch, queue), minEpoch, msg)
    decreases |queue|
  {
    var all := queue + [msg];
    if queue == [] {
      assert all[1..] == [];
    } else {
      assert all[0] == queue[0] && all[1..] == queue[1..] + [msg];
      FoldSnoc(Apply(m, minEpoch, queue[0]), minEpoch, queue[1..], msg);
    }
  }

  /** A delta that describes how the table changed takes a mirror of the old table to the new one. */
  lemma UpdateFollows(before: seq<Entry>, after: seq<Entry>, u: Msg)
    requires u.RosterUpdate? && InJoinOrder(before) && InJoinOrder(after)
    requires Replaced(Kept(before, u.removed), u.changed) + u.added == after
    ensures ApplyUpdate(Snapshot(before), u) == Snapshot(after)
  {
    SnapshotOfOrdered(before);
  }

  /** Everyone the delta is sent to still agrees afterwards. */
  lemma AgreementFollows(h: Host, h': Host, peers: Peers, to: set<string>, u: Msg, p: string)
    requires u.RosterUpdate? && InJoinOrder(h.entries) && InJoinOrder(h'.entries) && h'.epoch == h.epoch
    requires Replaced(Kept(h.entries, u.removed), u.changed) + u.added == h'.entries
    requires p in to && p in peers && WillAgree(h, peers[p])
    ensures WillAgree(h', Sent(peers, to, u)[p])
  {
    UpdateFollows(h.entries, h'.entries, u);
    FoldSnoc(peers[p].mirror, peers[p].minEpoch, peers[p].queue, u);
  }

  /** A message that is not about the roster leaves agreement as it was. */
  lemma AgreementIgnores(h: Host, h': Host, peers: Peers, to: set<string>, msg: Msg, p: string)
    requires (msg.HostTransfer? || msg.Other?) && h'.entries == h.entries && h'.epoch == h.epoch
    requires p in peers && WillAgree(h, peers[p])
    ensures WillAgree(h', Sent(peers, to, msg)[p])
  {
    FoldSnoc(peers[p].mirror, peers[p].minEpoch, peers[p].queue, msg);
  }

  // ----- how the table changes -----

  lemma AppendedTable(s: seq<Entry>, e: Entry, hostId: string, max: nat, fold: string -> string)
    requires TableInv(s, e.joinSeq, hostId, max, fold) && !e.isHost && !e.inboundVerified && e.inboundEndpoint.None? && |s| < max && !NameTaken(s, e.nickname, fold)
    requires !Has(s, e.peerId)
    ensures TableInv(s + [e], e.joinSeq + 1, hostId, max, fold)
  {
    var r := s + [e];
    forall i | 0 <= i < |s| ensures s[i].peerId != e.peerId && fold(s[i].nickname) != fold(e.nickname) {
      assert s[i] in s;
    }
    var k :| 0 <= k < |s| && HostAt(s, hostId, k);
    assert HostAt(r, hostId, k);
  }

  lemma AppendedIds(s: seq<Entry>, e: Entry)
    ensures PeerIds(s + [e]) == PeerIds(s) + {e.peerId}
  {
    assert (s + [e])[|s|] == e && forall x | x in s :: x in s + [e];
  }

  lemma AdmittedTable(h: Host, id: string, nickname: string, fold: string -> string)
    requires RosterInv(h, fold) && Refusal(h, nickname, fold).None? && !Has(h.entries, id) && id != h.hostId
    ensures Admitted(h, id, nickname).entries == h.entries + [NewcomerEntry(id, nickname, h.nextJoinSeq)]
    ensures PeerIds(Admitted(h, id, nickname).entries) == PeerIds(h.entries) + {id}
    ensures RosterInv(Admitted(h, id, nickname), fold)
  {
    AppendedTable(h.entries, NewcomerEntry(id, nickname, h.nextJoinSeq), h.hostId, h.maxParticipants, fold);
    AppendedIds(h.entries, NewcomerEntry(id, nickname, h.nextJoinSeq));
    hide TableInv, NameTaken;
  }

  lemma DroppedTable(h: Host, id: string, fold: string -> string)
    requires RosterInv(h, fold) && id != h.hostId
    ensures PeerIds(Dropped(h, id).entries) == PeerIds(h.entries) - {id}
    ensures RosterInv(Dropped(h, id), fold)
  {
    var s, r := h.entries, Kept(h.entries, [id]);
    KeptIn(s, [id]);
    KeptPairs(s, [id], (a: Entry, b: Entry) => a.joinSeq < b.joinSeq);
    KeptPairs(s, [id], (a: Entry, b: Entry) => a.peerId != b.peerId);
    KeptPairs(s, [id], (a: Entry, b: Entry) => fold(a.nickname) != fold(b.nickname));
    HostStays(s, id, h.hostId);
    forall i | 0 <= i < |r|
      ensures r[i].joinSeq < h.nextJoinSeq && (r[i].isHost || (r[i].inboundVerified <==> r[i].inboundEndpoint.Some?))
    {
      assert r[i] in s;
    }
    assert |r| >= 1;
    assert PeerIds(r) == PeerIds(s) - {id};
  }

  lemma ProbedPlaces(s: seq<Entry>, id: string, reachable: bool, endpoint: Endpoint)
    requires DistinctPeers(s) && Has(s, id)
    ensures var e := Probed(Get(s, id).value, reachable, endpoint);
            && Put(s, e) == Replaced(s, [e])
            && forall i | 0 <= i < |s| :: Put(s, e)[i] == if s[i].peerId == id then Probed(s[i], reachable, endpoint) else s[i]
  {
    var was := Get(s, id).value;
    var e := Probed(was, reachable, endpoint);
    var m :| 0 <= m < |s| && s[m] == was;
    assert [e][..0] == [];
    forall i | 0 <= i < |s| ensures Newer(s[i], [e]) == if s[i].peerId == id then Probed(s[i], reachable, endpoint) else s[i] {
      assert s[i].peerId == id ==> i == m;
    }
  }

  /** A probe changes neither who is where nor what they are called. */
  ghost predicate SamePlaces(s: seq<Entry>, r: seq<Entry>) {
    |r| == |s| && forall i | 0 <= i < |s| ::
      && r[i].peerId == s[i].peerId && r[i].joinSeq == s[i].joinSeq && r[i].nickname == s[i].nickname && r[i].isHost == s[i].isHost
      && (r[i] == s[i] || (r[i].inboundVerified <==> r[i].inboundEndpoint.Some?))
  }

  lemma ProbedSamePlaces(s: seq<Entry>, id: string, reachable: bool, endpoint: Endpoint)
    requires DistinctPeers(s) && Has(s, id)
    ensures var e := Probed(Get(s, id).value, reachable, endpoint);
            Put(s, e) == Replaced(s, [e]) && SamePlaces(s, Put(s, e))
  {
    ProbedPlaces(s, id, reachable, endpoint);
  }

  lemma SamePlacesTable(s: seq<Entry>, r: seq<Entry>, nextJoinSeq: nat, hostId: string, max: nat, fold: string -> string)
    requires TableInv(s, nextJoinSeq, hostId, max, fold) && SamePlaces(s, r)
    ensures TableInv(r, nextJoinSeq, hostId, max, fold) && PeerIds(r) == PeerIds(s)
  {
    var k :| 0 <= k < |s| && HostAt(s, hostId, k);
    assert HostAt(r, hostId, k);
    forall i | 0 <= i < |s| ensures s[i].peerId in PeerIds(r) && r[i].peerId in PeerIds(s) {
      assert r[i] in r && s[i] in s;
    }
  }

  // ----- every step keeps agreement -----

  lemma NewcomerAgrees(h: Host, id: string, joinSeq: nat, minEpoch: nat)
    ensures WillAgree(h, Peer(minEpoch, Waiting, [Joined(id, joinSeq, h.epoch, Snapshot(h.entries))]))
  {
    var q := [Joined(id, joinSeq, h.epoch, Snapshot(h.entries))];
    assert q[1..] == [];
    assert Fold(Waiting, minEpoch, q) == Apply(Waiting, minEpoch, q[0]);
  }

  lemma BroadcastKeepsAgreement(s: System, h': Host, to: set<string>, u: Msg)
    requires AllWillAgree(s) && to <= s.host.links
    requires u.RosterUpdate? && InJoinOrder(s.host.entries) && InJoinOrder(h'.entries) && h'.epoch == s.host.epoch
    requires Replaced(Kept(s.host.entries, u.removed), u.changed) + u.added == h'.entries
    ensures AllWillAgree(System(h'.(links := to), Sent(s.peers, to, u)))
  {
    forall p | p in to ensures p in s.peers && WillAgree(h'.(links := to), Sent(s.peers, to, u)[p]) {
      AgreementFollows(s.host, h'.(links := to), s.peers, to, u, p);
    }
  }

  lemma AdmitAgrees(s: System, h': Host, to: set<string>, id: string, minEpoch: nat, joinSeq: nat, peers: Peers)
    requires AllWillAgree(System(h'.(links := to), peers)) && h'.links == to + {id} && id !in to
    ensures AllWillAgree(System(h', peers[id := Peer(minEpoch, Waiting, [Joined(id, joinSeq, h'.epoch, Snapshot(h'.entries))])]))
  {
    NewcomerAgrees(h', id, joinSeq, minEpoch);
    forall p | p in to ensures p in peers && WillAgree(h', peers[p]) {
      assert WillAgree(h'.(links := to), peers[p]);
    }
  }

  lemma AdmitKeeps(s: System, a: Action, fold: string -> string)
    requires Inv(s, fold) && a.Admit? && Enabled(s, a)
    ensures Inv(Next(s, a, fold), fold)
  {
    hide AllWillAgree, Snapshot, DistinctNames, OneHost;
    var h, id := s.host, a.peerId;
    if Refusal(h, a.nickname, fold).None? {
      AdmittedTable(h, id, a.nickname, fold);
      var e, h' := NewcomerEntry(id, a.nickname, h.nextJoinSeq), Admitted(h, id, a.nickname);
      var u, to := RosterUpdate([e], [], []), h'.links - {id};
      assert to == h.links;
      KeepingNone(h.entries);
      ReplacingNone(h.entries);
      BroadcastKeepsAgreement(s, h', to, u);
      AdmitAgrees(s, h', to, id, a.minEpoch, h.nextJoinSeq, Sent(s.peers, to, u));
      hide TableInv, Admitted;
    }
  }

  lemma GoneKeeps(s: System, a: Action, fold: string -> string)
    requires Inv(s, fold) && a.PeerGone? && Enabled(s, a)
    ensures Inv(Next(s, a, fold), fold)
  {
    var h, id := s.host, a.peerId;
    if !h.closing {
      var h' := Dropped(h, id);
      DroppedTable(h, id, fold);
      ReplacingNone(h'.entries);
      if Has(h.entries, id) {
        assert h'.entries + [] == h'.entries;
        BroadcastKeepsAgreement(s, h', h'.links, RosterUpdate([], [id], []));
      } else {
        KeptAll(h.entries, id);
      }
    }
  }

  lemma {:induction false} KeptAll(s: seq<Entry>, id: string)
    requires !Has(s, id)
    ensures Kept(s, [id]) == s
  {
    if s != [] {
      var init, last := s[..|s| - 1], s[|s| - 1];
      assert s == init + [last] && last in s;
      assert forall e | e in init :: e in s;
      KeptAll(init, id);
    }
  }

  lemma ProbeKeeps(s: System, a: Action, fold: string -> string)
    requires Inv(s, fold) && a.ProbeSettles?
    ensures Inv(Next(s, a, fold), fold)
  {
    hide AllWillAgree, Snapshot, DistinctNames, OneHost, Replaced, Kept, SamePlaces;
    var h, id := s.host, a.peerId;
    if id in h.links && Has(h.entries, id) {
      var e := Probed(Get(h.entries, id).value, a.reachable, a.endpoint);
      var r := Put(h.entries, e);
      ProbedSamePlaces(h.entries, id, a.reachable, a.endpoint);
      SamePlacesTable(h.entries, r, h.nextJoinSeq, h.hostId, h.maxParticipants, fold);
      KeepingNone(h.entries);
      assert r + [] == r;
      BroadcastKeepsAgreement(s, h.(entries := r), h.links, RosterUpdate([], [], [e]));
      hide TableInv, Probed, Put, Get;
    }
  }

  lemma ReadKeeps(s: System, id: string, fold: string -> string)
    requires Inv(s, fold)
    ensures Inv(Next(s, Read(id), fold), fold)
  {
    hide RosterInv, PeerIds, Snapshot, Apply;
    var s' := Next(s, Read(id), fold);
    forall p | p in s'.host.links ensures p in s'.peers && WillAgree(s'.host, s'.peers[p]) {
      assert WillAgree(s.host, s.peers[p]);
    }
  }

  lemma OtherStepsKeep(s: System, a: Action, fold: string -> string)
    requires Inv(s, fold) && (a.Transfer? || a.CloseForHandoff? || a.Say?)
    ensures Inv(Next(s, a, fold), fold)
  {
    hide TableInv, WillAgree, Successor, PeerIds, Fold;
    var h, s' := s.host, Next(s, a, fold);
    forall p | p in s'.host.links ensures p in s'.peers && WillAgree(s'.host, s'.peers[p]) {
      if a.Transfer? {
        AgreementIgnores(h, s'.host, s.peers, h.links, HostTransfer(Successor(h.entries).value, h.epoch + 1), p);
      } else if a.Say? {
        AgreementIgnores(h, s'.host, s.peers, h.links * {a.peerId}, Other, p);
      }
    }
  }

  lemma NextKeeps(s: System, a: Action, fold: string -> string)
    requires Inv(s, fold) && Enabled(s, a)
    ensures Inv(Next(s, a, fold), fold)
  {
    match a
    case Admit(_, _, _) => AdmitKeeps(s, a, fold);
    case PeerGone(_) => GoneKeeps(s, a, fold);
    case ProbeSettles(_, _, _) => ProbeKeeps(s, a, fold);
    case Read(id) => ReadKeeps(s, id, fold);
    case _ => OtherStepsKeep(s, a, fold);
  }

  lemma {:induction false} RunKeeps(s: System, fold: string -> string, run: seq<Action>, from: System)
    requires Inv(from, fold) && Reachable(s, fold, run, from)
    ensures Inv(s, fold)
    decreases |run|
  {
    if run != [] {
      NextKeeps(from, run[0], fold);
      RunKeeps(s, fold, run[1..], Next(from, run[0], fold));
    }
  }

  lemma OpenedIsInv(hostId: string, nickname: string, epoch: nat, max: nat, fold: string -> string)
    ensures Inv(Opened(hostId, nickname, epoch, max), fold)
    ensures var h := Opened(hostId, nickname, epoch, max).host;
            h.entries == [Entry(hostId, nickname, 0, true, true, None, None)] && h.links == {} && !h.closing && h.epoch == epoch
  {
    assert HostAt([HostEntry(hostId, nickname)], hostId, 0);
  }

  /**
   * In every reachable state, whatever the interleaving of joins, departures, settling probes, handoff
   * and reads: the table is well formed, and each linked peer that accepts the epoch, once it has read
   * what is queued to it, holds exactly the host's snapshot.
   */
  lemma Convergence(s: System, run: seq<Action>, hostId: string, nickname: string, epoch: nat, max: nat, fold: string -> string)
    requires Reachable(s, fold, run, Opened(hostId, nickname, epoch, max))
    ensures RosterInv(s.host, fold) && AllWillAgree(s)
  {
    OpenedIsInv(hostId, nickname, epoch, max, fold);
    RunKeeps(s, fold, run, Opened(hostId, nickname, epoch, max));
  }

  /** A linked peer with nothing left to read computes the heir the host would name. */
  lemma DrainedMirrorsNameTheHeir(s: System, run: seq<Action>, hostId: string, nickname: string, epoch: nat, max: nat,
                                  fold: string -> string, p: string)
    requires Reachable(s, fold, run, Opened(hostId, nickname, epoch, max))
    requires p in s.host.links && p in s.peers && s.peers[p].queue == [] && s.peers[p].mirror.Holding?
    ensures s.peers[p].mirror.roster == Snapshot(s.host.entries)
    ensures Succession.DesignatedHeir(Candidates(s.peers[p].mirror.roster)) == Successor(s.host.entries)
  {
    Convergence(s, run, hostId, nickname, epoch, max, fold);
    assert WillAgree(s.host, s.peers[p]);
  }

  // ----- reading, and closing -----

  function Reads(id: string, n: nat): seq<Action> { seq(n, i => Read(id)) }

  function RunAll(s: System, run: seq<Action>, fold: string -> string): System
    decreases |run|
  {
    if run == [] then s else RunAll(Next(s, run[0], fold), run[1..], fold)
  }

  /** A peer that reads as often as there is something queued has read it all, in order, and nothing else has changed. */
  lemma {:induction false} ReadingDrains(s: System, id: string, fold: string -> string)
    requires id in s.peers
    ensures var p := s.peers[id];
            RunAll(s, Reads(id, |p.queue|), fold) == s.(peers := s.peers[id := Peer(p.minEpoch, Fold(p.mirror, p.minEpoch, p.queue), [])])
    decreases |s.peers[id].queue|
  {
    var p := s.peers[id];
    hide Apply;
    if p.queue == [] {
      assert s == s.(peers := s.peers[id := p]);
    } else {
      var s' := Next(s, Read(id), fold);
      assert Reads(id, |p.queue|)[1..] == Reads(id, |p.queue| - 1);
      ReadingDrains(s', id, fold);
      assert s.peers[id := s'.peers[id]][id := s'.peers[id].(queue := [])] == s.peers[id := s'.peers[id].(queue := [])];
    }
  }

  /**
   * Handing the host role over marks the host as closing and names the heir, with the next epoch, to every linked peer;
   * with no heir it drops every link at once. Closing for the handoff drops them all, and neither takes anyone off the roster.
   */
  lemma TransferCloses(s: System, fold: string -> string)
    ensures var r, heir := Next(s, Transfer, fold), Successor(s.host.entries);
            && r.host == s.host.(closing := true, links := if heir.Some? then s.host.links else {})
            && forall p | p in s.peers ::
                 p in r.peers
                 && r.peers[p] == if heir.Some? && p in s.host.links
                                  then s.peers[p].(queue := s.peers[p].queue + [HostTransfer(heir.value, s.host.epoch + 1)]) else s.peers[p]
    ensures Next(s, CloseForHandoff, fold) == s.(host := s.host.(closing := true, links := {}))
  {
    hide Successor;
  }

  /** Once closing, always closing, and in the same epoch. */
  lemma {:induction false} ClosingIsFinal(s: System, run: seq<Action>, fold: string -> string)
    ensures var r := RunAll(s, run, fold); (s.host.closing ==> r.host.closing) && r.host.epoch == s.host.epoch && r.host.hostId == s.host.hostId
    decreases |run|
  {
    if run != [] {
      hide Successor, Refusal, Snapshot, Put, Kept;
      ClosingIsFinal(Next(s, run[0], fold), run[1..], fold);
    }
  }
}
