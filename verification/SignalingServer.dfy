/** The mutable signaling server and client, proved to take the steps of module Signaling. */
module SignalingEndpoints {
  import opened Bytes
  import opened Rosters
  import opened Signaling

  /** `#roster`, `#links` and `#closing`; `peers` holds what is queued on each peer's connection. */
  class SignalingServer {
    const hostId: string
    const epoch: nat
    const maxParticipants: nat
    const fold: string -> string
    const roster: Roster
    var links: set<string>
    var closing: bool
    var peers: Peers

    ghost predicate Valid()
      reads this, roster
    {
      roster.fold == fold && links <= peers.Keys
    }

    ghost function AsHost(): Host
      reads this, roster
    {
      Host(hostId, epoch, maxParticipants, roster.entries, roster.nextJoinSeq, links, closing)
    }

    ghost function State(): System
      reads this, roster
    {
      System(AsHost(), peers)
    }

    constructor (hostId: string, nickname: string, epoch: nat, maxParticipants: nat, fold: string -> string)
      ensures Valid() && fresh(roster) && this.fold == fold
      ensures State() == Opened(hostId, nickname, epoch, maxParticipants)
    {
      this.hostId, this.epoch, this.maxParticipants, this.fold := hostId, epoch, maxParticipants, fold;
      roster := new Roster(HostEntry(hostId, nickname), fold);
      links, closing, peers := {}, false, map[];
    }

    static function Without(links: set<string>, exceptId: Option<string>): set<string> {
      if exceptId.Some? then links - {exceptId.value} else links
    }

    method Broadcast(msg: Msg, exceptId: Option<string>)
      requires Valid()
      modifies this`peers
      ensures Valid() && peers == Sent(old(peers), Without(links, exceptId), msg)
    {
      ghost var was := peers;
      var rest := links;
      while rest != {}
        invariant rest <= links && peers.Keys == was.Keys
        invariant forall p | p in was ::
                    peers[p] == if p in links - rest && Some(p) != exceptId then was[p].(queue := was[p].queue + [msg]) else was[p]
        decreases |rest|
      {
        var p :| p in rest;
        if Some(p) != exceptId {
          peers := peers[p := peers[p].(queue := peers[p].queue + [msg])];
        }
        rest := rest - {p};
      }
    }

    method Admit(peerId: string, nickname: string, minEpoch: nat) returns (refused: Option<RejectReason>)
      requires Valid() && Enabled(State(), Action.Admit(peerId, nickname, minEpoch))
      modifies this`links, this`peers, roster
      ensures Valid()
      ensures State() == Next(old(State()), Action.Admit(peerId, nickname, minEpoch), fold)
      ensures refused == Refusal(old(AsHost()), nickname, fold)
    {
      if |roster.entries| >= maxParticipants { return Some(RoomFull); }
      var taken := roster.HasNickname(nickname);
      if taken { return Some(DuplicateNickname); }
      var joinSeq := roster.AllocateJoinSeq();
      var entry := NewcomerEntry(peerId, nickname, joinSeq);
      roster.Add(entry);
      links := links + {peerId};
      peers := peers[peerId := Peer(minEpoch, Waiting, [Joined(peerId, joinSeq, epoch, Snapshot(roster.entries))])];
      Broadcast(RosterUpdate([entry], [], []), Some(peerId));
      return None;
    }

    method OnPeerGone(peerId: string)
      requires Valid() && Enabled(State(), PeerGone(peerId))
      modifies this`links, this`peers, roster
      ensures Valid() && State() == Next(old(State()), PeerGone(peerId), fold)
    {
      if closing { return; }
      var removed := roster.Remove(peerId);
      links := links - {peerId};
      if removed.None? { return; }
      Broadcast(RosterUpdate([], [peerId], []), None);
    }

    method ProbeInbound(peerId: string, reachable: bool, endpoint: Endpoint)
      requires Valid()
      modifies this`peers, roster
      ensures Valid() && State() == Next(old(State()), ProbeSettles(peerId, reachable, endpoint), fold)
    {
      if peerId !in links { return; }
      var updated := roster.UpdateInbound(peerId, reachable, if reachable then Some(endpoint) else None);
      if updated.None? { return; }
      Broadcast(RosterUpdate([], [], [updated.value]), None);
    }

    /** The part before the grace wait; with nobody to name, the room just closes. */
    method TransferHost() returns (successor: Option<string>)
      requires Valid()
      modifies this`links, this`closing, this`peers
      ensures Valid() && State() == Next(old(State()), Transfer, fold)
      ensures successor == Successor(roster.entries)
    {
      successor := Successor(roster.entries);
      closing := true;
      if successor.None? {
        links := {};
        return;
      }
      Broadcast(HostTransfer(successor.value, epoch + 1), None);
    }

    method CloseSource()
      requires Valid()
      modifies this`links, this`closing
      ensures Valid() && State() == Next(old(State()), CloseForHandoff, fold)
    {
      closing := true;
      links := {};
    }
  }

  /** The peer's mirror: `#roster` reassigned and sorted by each update. */
  class SignalingClient {
    const minEpoch: nat
    var joined: bool
    var refused: bool
    var epoch: nat
    var peerId: string
    var roster: seq<Entry>

    constructor (minEpoch: nat)
      ensures this.minEpoch == minEpoch && View() == Waiting
    {
      this.minEpoch := minEpoch;
      joined, refused, epoch, peerId, roster := false, false, 0, "", [];
    }

    function View(): Mirror
      reads this
    {
      if refused then Stale else if joined then Holding(roster) else Waiting
    }

    /** A `joined` from an older host than expected is refused; the epoch is kept only when it is accepted. */
    method OnMessage(msg: Msg)
      modifies this
      ensures View() == Apply(old(View()), minEpoch, msg)
      ensures old(View()).Waiting? && View().Holding? ==> epoch == msg.epoch >= minEpoch && peerId == msg.peerId
      ensures !(old(View()).Waiting? && View().Holding?) ==> epoch == old(epoch) && peerId == old(peerId)
    {
      if refused { return; }
      if !joined {
        if msg.Joined? {
          if msg.epoch < minEpoch {
            refused := true;
          } else {
            peerId, roster, epoch, joined := msg.peerId, msg.roster, msg.epoch, true;
          }
        }
        return;
      }
      if msg.RosterUpdate? {
        roster := Replaced(Kept(roster, msg.removed), msg.changed) + msg.added;
        roster := Snapshot(roster);
      }
    }
  }
}
