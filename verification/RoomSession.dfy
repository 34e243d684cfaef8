/** One participant's session through a graceful handoff (src/main/app/room-session.ts): flags, epoch and role. */
module RoomSessions {
  import opened Bytes

  datatype Phase = InRoom | Hosting | Left

  /** Who this session is to the room: the id it goes by and the epoch of the host it settled with. */
  datatype Role = Role(peerId: string, epoch: nat)

  /** The asynchronous function a host_transfer started, until it settles. */
  datatype Task = NoTask | Promoting(peerId: string, epoch: nat) | Starting(peerId: string, epoch: nat) | Rehoming(epoch: nat)

  datatype Session = Session(phase: Phase, leaving: bool, transferring: bool, client: Option<Role>, server: Option<Role>, task: Task)

  function Joined(peerId: string, epoch: nat): Session {
    Session(InRoom, false, false, Some(Role(peerId, epoch)), None, NoTask)
  }

  function Opened(peerId: string, epoch: nat): Session {
    Session(Hosting, false, false, None, Some(Role(peerId, epoch)), NoTask)
  }

  /** A named successor promotes itself and everybody else re-homes; a session already busy or leaving ignores it. */
  function OnHostTransfer(s: Session, successor: string, epoch: nat): Session {
    if s.leaving || s.transferring then s
    else
      var mine := s.client.Some? && s.client.value.peerId == successor;
      s.(transferring := true, client := None, task := if mine then Promoting(successor, epoch) else Rehoming(epoch))
  }

  /** The promotion's host link opened: go on to start the server, unless the user left while it was dialled. */
  function LinkOpened(s: Session): Session {
    if !s.task.Promoting? then s
    else if s.leaving then s.(task := NoTask)
    else s.(task := Starting(s.task.peerId, s.task.epoch))
  }

  /** The server is up; a user who left meanwhile has it closed again and does not go on to host. */
  function ServerStarted(s: Session): Session {
    if !s.task.Starting? then s
    else
      var served := s.(server := Some(Role(s.task.peerId, s.task.epoch)), task := NoTask);
      if s.leaving then served else served.(transferring := false, phase := Hosting)
  }

  function Ended(s: Session): Session {
    s.(transferring := false, phase := Left, task := NoTask)
  }

  /** The re-homed client was admitted by a host of this epoch; an older one than named is refused. */
  function Rejoined(s: Session, peerId: string, epoch: nat): Session {
    if !s.task.Rehoming? then s
    else if s.leaving then s.(task := NoTask)
    else if epoch < s.task.epoch then Ended(s)
    else s.(client := Some(Role(peerId, epoch)), transferring := false, phase := InRoom, task := NoTask)
  }

  function Leave(s: Session): Session { s.(leaving := true, phase := Left) }

  /** The epoch of the host this session last settled with, if it is settled. */
  function Epoch(s: Session): Option<nat> {
    if s.server.Some? then Some(s.server.value.epoch)
    else if s.client.Some? then Some(s.client.value.epoch)
    else None
  }

  // ----- what a session comes to -----

  /** A settled peer that is named, and is let through, hosts under its own id at the named epoch. */
  lemma NamedSessionHosts(s: Session, epoch: nat)
    requires s.client.Some? && s.server.None? && !s.leaving && !s.transferring
    ensures var id := s.client.value.peerId;
            ServerStarted(LinkOpened(OnHostTransfer(s, id, epoch))) == Session(Hosting, false, false, None, Some(Role(id, epoch)), NoTask)
  {
  }

  /** A settled peer that is not named settles with whoever admits it, unless that host is older than the one named. */
  lemma OtherSessionRehomes(s: Session, successor: string, named: nat, id: string, epoch: nat)
    requires s.client.Some? && s.client.value.peerId != successor && s.server.None? && !s.leaving && !s.transferring
    ensures Rejoined(OnHostTransfer(s, successor, named), id, epoch)
            == if epoch >= named then Session(InRoom, false, false, Some(Role(id, epoch)), None, NoTask)
               else Session(Left, false, false, None, None, NoTask)
  {
  }

  /** A session that is leaving, or already changing hosts, ignores a name. */
  lemma BusyIgnoresNames(s: Session, successor: string, epoch: nat)
    requires s.leaving || s.transferring
    ensures OnHostTransfer(s, successor, epoch) == s
  {
  }

  /** Whoever leaves meanwhile neither starts a server over the link that opened nor settles anywhere. */
  lemma LeavingGoesNowhere(s: Session, id: string, epoch: nat)
    requires s.leaving
    ensures s.task.Promoting? ==> LinkOpened(s) == s.(task := NoTask)
    ensures s.task.Rehoming? ==> Rejoined(s, id, epoch) == s.(task := NoTask)
    ensures s.task.Starting? ==> ServerStarted(s).phase == s.phase && ServerStarted(s).transferring == s.transferring
  {
  }

  /** What the phase shows is what the session is, and it is transferring while a transfer is in progress. */
  predicate Tells(s: Session) {
    && (s.leaving ==> s.phase == Left)
    && (!s.leaving ==>
          && s.phase == (if s.server.Some? then Hosting else if s.client.Some? || s.task != NoTask then InRoom else Left)
          && (s.transferring <==> s.task != NoTask))
  }

  class RoomSession {
    var phase: Phase
    var leaving: bool
    var transferring: bool
    var client: Option<Role>
    var server: Option<Role>
    var task: Task

    function State(): Session
      reads this
    {
      Session(phase, leaving, transferring, client, server, task)
    }

    /** A session as joining a room, or hosting one, leaves it. */
    constructor Join(peerId: string, epoch: nat)
      ensures State() == Joined(peerId, epoch)
    {
      phase, leaving, transferring, client, server, task := InRoom, false, false, Some(Role(peerId, epoch)), None, NoTask;
    }

    constructor Host(peerId: string, epoch: nat)
      ensures State() == Opened(peerId, epoch)
    {
      phase, leaving, transferring, client, server, task := Hosting, false, false, None, Some(Role(peerId, epoch)), NoTask;
    }

    method LeaveRoom()
      modifies this
      ensures State() == Leave(old(State()))
    {
      leaving := true;
      phase := Left;
    }

    method HostTransfer(successor: string, epoch: nat)
      modifies this
      ensures State() == OnHostTransfer(old(State()), successor, epoch)
    {
      if leaving || transferring { return; }
      transferring := true;
      if client.Some? && client.value.peerId == successor {
        client, task := None, Promoting(successor, epoch);
      } else {
        client, task := None, Rehoming(epoch);
      }
    }

    method PromotionLinkOpened()
      modifies this
      ensures State() == LinkOpened(old(State()))
    {
      if !task.Promoting? { return; }
      if leaving {
        task := NoTask;
        return;
      }
      task := Starting(task.peerId, task.epoch);
    }

    method PromotionServerStarted()
      modifies this
      ensures State() == ServerStarted(old(State()))
    {
      if !task.Starting? { return; }
      server := Some(Role(task.peerId, task.epoch));
      task := NoTask;
      if leaving { return; }
      transferring, phase := false, Hosting;
    }

    method Rehomed(peerId: string, epoch: nat)
      modifies this
      ensures State() == Rejoined(old(State()), peerId, epoch)
    {
      if !task.Rehoming? { return; }
      if leaving {
        task := NoTask;
        return;
      }
      if epoch < task.epoch {
        End();
        return;
      }
      client := Some(Role(peerId, epoch));
      transferring, phase, task := false, InRoom, NoTask;
    }

    method End()
      modifies this
      ensures State() == Ended(old(State()))
    {
      transferring, phase, task := false, Left, NoTask;
    }
  }
}
