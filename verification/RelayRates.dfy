/** What the per-address windows mean for the relay's answers, over whole runs of the registry. */
module RelayRates {
  import opened Bytes
  import opened Arithmetic
  import opened RelayWire
  import opened RelayRoom
  import opened RateWindow
  import opened RelayRegistry

  /** The socket is told READY, or is told why not and closed. */
  predicate Welcomed(o: Outcome, sock: Socket) {
    o.out != [] && o.out[0].Send? && o.out[0].sock == sock && o.out[0].msg.Ready?
  }

  predicate TurnedAway(o: Outcome, sock: Socket, reason: Reason) {
    o.out == [Send(sock, Reject(reason)), Close(sock)]
  }

  /**
   * An event that counts against its address: a join answered READY; a room created, or refused for no other reason
   * than that it exists.
   */
  predicate Spends(reg: Registry, lim: Limits, now: int, ev: Event, ip: string, kind: Kind) {
    ev.HelloEvent? && ev.sock.ip == ip
    && var o := Step(reg, lim, now, ev);
       if kind == Joins then ev.hello.role == PeerRole && Welcomed(o, ev.sock)
       else ev.hello.role == HostRole
            && (TurnedAway(o, ev.sock, RoomExists) || (Welcomed(o, ev.sock) && ev.hello.roomId !in reg.rooms))
  }

  /** When the events of a run that count against an address happened. */
  function SpentAt(reg: Registry, lim: Limits, run: seq<Timed>, ip: string, kind: Kind): seq<int>
    decreases |run|
  {
    if run == [] then []
    else
      (if Spends(reg, lim, run[0].now, run[0].ev, ip, kind) then [run[0].now] else [])
      + SpentAt(Step(reg, lim, run[0].now, run[0].ev).reg, lim, run[1..], ip, kind)
  }

  /** The clock does not go back; `from` is no later than the first event and `to` no earlier than the last. */
  predicate Clocked(run: seq<Timed>, from: int, to: int)
    decreases |run|
  {
    if run == [] then from <= to else from <= run[0].now && Clocked(run[1..], run[0].now, to)
  }

  // ----- the table of the registry against the log of what was spent -----

  ghost predicate Accounted(reg: Registry, log: Log, lim: Limits, t: int) {
    Agree(reg.rate, log, lim, t) && Bounded(log, lim, t)
  }

  function LogStep(reg: Registry, lim: Limits, now: int, ev: Event, log: Log): Log {
    if !ev.HelloEvent? then log
    else if Spends(reg, lim, now, ev, ev.sock.ip, Joins) then log[(ev.sock.ip, Joins) := Grants(log, ev.sock.ip, Joins) + [now]]
    else if Spends(reg, lim, now, ev, ev.sock.ip, Creates) then log[(ev.sock.ip, Creates) := Grants(log, ev.sock.ip, Creates) + [now]]
    else log
  }

  function LogOf(reg: Registry, lim: Limits, run: seq<Timed>, log: Log): Log
    decreases |run|
  {
    if run == [] then log
    else LogOf(Step(reg, lim, run[0].now, run[0].ev).reg, lim, run[1..], LogStep(reg, lim, run[0].now, run[0].ev, log))
  }

  lemma {:induction false} LogIsSpent(reg: Registry, lim: Limits, run: seq<Timed>, log: Log, ip: string, kind: Kind)
    ensures Grants(LogOf(reg, lim, run, log), ip, kind) == Grants(log, ip, kind) + SpentAt(reg, lim, run, ip, kind)
    decreases |run|
  {
    hide Step, Spends, LogStep, Grants;
    if run == [] {
      assert Grants(log, ip, kind) + [] == Grants(log, ip, kind);
    } else {
      var now, ev, rest := run[0].now, run[0].ev, run[1..];
      var spent: seq<int> := if Spends(reg, lim, now, ev, ip, kind) then [now] else [];
      StepSpends(reg, lim, now, ev, log, ip, kind);
      LogIsSpent(Step(reg, lim, now, ev).reg, lim, rest, LogStep(reg, lim, now, ev, log), ip, kind);
      Regroup(Grants(log, ip, kind), spent, SpentAt(Step(reg, lim, now, ev).reg, lim, rest, ip, kind));
    }
  }

  lemma StepSpends(reg: Registry, lim: Limits, now: int, ev: Event, log: Log, ip: string, kind: Kind)
    ensures Grants(LogStep(reg, lim, now, ev, log), ip, kind)
            == Grants(log, ip, kind) + if Spends(reg, lim, now, ev, ip, kind) then [now] else []
  {
    hide Step;
  }

  lemma Later(rate: Rates, log: Log, lim: Limits, t: int, now: int)
    requires Agree(rate, log, lim, t) && Bounded(log, lim, t) && t <= now
    ensures Agree(rate, log, lim, now) && Bounded(log, lim, now)
  {
    forall ip, kind
      ensures Ordered(Grants(log, ip, kind), now)
      ensures forall a :: InWindow(Grants(log, ip, kind), a, lim.rateWindowMs) <= Cap(lim, kind)
    {
      OrderedLater(Grants(log, ip, kind), t, now);
    }
  }

  /** What a fresh hello of the right version spends: nothing, or what the table's own question allows. */
  lemma HelloAsks(reg: Registry, lim: Limits, now: int, ev: Event, log: Log)
    requires ev.HelloEvent? && Agree(reg.rate, log, lim, now)
    ensures var o := Step(reg, lim, now, ev);
            || (o.reg.rate == reg.rate && LogStep(reg, lim, now, ev, log) == log)
            || exists kind ::
                 var v := Allow(reg.rate, lim, ev.sock.ip, kind, now);
                 o.reg.rate == v.rate
                 && LogStep(reg, lim, now, ev, log) == if v.allowed then log[(ev.sock.ip, kind) := Grants(log, ev.sock.ip, kind) + [now]] else log
  {
    hide Allow, Claim, Agree;
    var sock, hello := ev.sock, ev.hello;
    if sock in reg.attached || hello.proto != PROTOCOL_VERSION {
      OddHelloIsRefused(reg, lim, now, sock, hello);
    } else if hello.role == HostRole {
      HostAsks(reg, lim, now, ev);
    } else {
      PeerAsks(reg, lim, now, ev);
    }
    hide Step, Spends;
  }

  lemma HostAsks(reg: Registry, lim: Limits, now: int, ev: Event)
    requires ev.HelloEvent? && ev.sock !in reg.attached && ev.hello.proto == PROTOCOL_VERSION && ev.hello.role == HostRole
    ensures var o, v := Step(reg, lim, now, ev), Allow(reg.rate, lim, ev.sock.ip, Creates, now);
            && !Spends(reg, lim, now, ev, ev.sock.ip, Joins)
            && ((o.reg.rate == reg.rate && !Spends(reg, lim, now, ev, ev.sock.ip, Creates))
                || (o.reg.rate == v.rate && Spends(reg, lim, now, ev, ev.sock.ip, Creates) == v.allowed))
  {
    hide Allow, Claim;
    if ev.hello.roomId in reg.rooms { ClaimWelcomes(reg, ev.hello.roomId, ev.sock); }
  }

  lemma PeerAsks(reg: Registry, lim: Limits, now: int, ev: Event)
    requires ev.HelloEvent? && ev.sock !in reg.attached && ev.hello.proto == PROTOCOL_VERSION && ev.hello.role == PeerRole
    ensures var o, v := Step(reg, lim, now, ev), Allow(reg.rate, lim, ev.sock.ip, Joins, now);
            && !Spends(reg, lim, now, ev, ev.sock.ip, Creates)
            && ((o.reg.rate == reg.rate && !Spends(reg, lim, now, ev, ev.sock.ip, Joins))
                || (o.reg.rate == v.rate && Spends(reg, lim, now, ev, ev.sock.ip, Joins) == v.allowed))
  {
    hide Allow;
  }

  lemma ClaimWelcomes(reg: Registry, id: string, sock: Socket)
    requires id in reg.rooms
    ensures Claim(reg.rooms[id], sock).out != [] && Claim(reg.rooms[id], sock).out[0] == Send(sock, Ready(None))
  {
  }

  lemma OtherKeepsRates(reg: Registry, lim: Limits, now: int, ev: Event)
    requires !ev.HelloEvent?
    ensures Step(reg, lim, now, ev).reg.rate == if ev.SweepEvent? then SweepRates(reg.rate, lim, now) else reg.rate
  {
    hide SweepNotices, FromHost, FromPeer, PeerClosed, Teardown;
  }

  lemma StepAccounts(reg: Registry, lim: Limits, now: int, ev: Event, log: Log, t: int)
    requires Accounted(reg, log, lim, t) && t <= now
    ensures Accounted(Step(reg, lim, now, ev).reg, LogStep(reg, lim, now, ev, log), lim, now)
  {
    hide Step, Agree, Bounded, Allow, Spends, SweepRates;
    Later(reg.rate, log, lim, t, now);
    var o := Step(reg, lim, now, ev);
    if ev.HelloEvent? {
      HelloAsks(reg, lim, now, ev, log);
      var log' := LogStep(reg, lim, now, ev, log);
      if !(o.reg.rate == reg.rate && log' == log) {
        var kind :| var v := Allow(reg.rate, lim, ev.sock.ip, kind, now);
                    o.reg.rate == v.rate
                    && log' == if v.allowed then log[(ev.sock.ip, kind) := Grants(log, ev.sock.ip, kind) + [now]] else log;
        AskKeepsAgreement(reg.rate, log, lim, t, Ask(ev.sock.ip, kind, now));
        GrantKeepsBound(log, lim, t, Ask(ev.sock.ip, kind, now));
      }
    } else {
      OtherKeepsRates(reg, lim, now, ev);
      if ev.SweepEvent? { SweepKeepsAgreement(reg.rate, log, lim, t, now); }
    }
  }

  lemma {:induction false} RunAccounts(reg: Registry, lim: Limits, run: seq<Timed>, log: Log, t: int, now: int)
    requires Accounted(reg, log, lim, t) && Clocked(run, t, now)
    ensures Accounted(Run(reg, lim, run), LogOf(reg, lim, run, log), lim, now)
    decreases |run|
  {
    hide Step, Accounted, LogStep;
    if run == [] {
      AccountedLater(reg, log, lim, t, now);
    } else {
      StepAccounts(reg, lim, run[0].now, run[0].ev, log, t);
      RunAccounts(Step(reg, lim, run[0].now, run[0].ev).reg, lim, run[1..], LogStep(reg, lim, run[0].now, run[0].ev, log), run[0].now, now);
    }
  }

  lemma AccountedLater(reg: Registry, log: Log, lim: Limits, t: int, now: int)
    requires Accounted(reg, log, lim, t) && t <= now
    ensures Accounted(reg, log, lim, now)
  {
    Later(reg.rate, log, lim, t, now);
  }

  lemma NothingSpent(lim: Limits, t: int)
    ensures Accounted(EMPTY, map[], lim, t)
  {
    assert forall ip, kind :: Grants(map[], ip, kind) == [] && Times(BucketOf(map[], ip), kind) == [];
  }

  /** The log kept along a run from the start is what was spent, and the table answers from it. */
  lemma RunIsLogged(lim: Limits, run: seq<Timed>, t: int, now: int, ip: string, kind: Kind) returns (log: Log)
    requires Clocked(run, t, now)
    ensures Agree(Run(EMPTY, lim, run).rate, log, lim, now) && Bounded(log, lim, now)
    ensures Grants(log, ip, kind) == SpentAt(EMPTY, lim, run, ip, kind)
  {
    hide Step, Spends, SpentAt, Agree, Bounded, LogOf, Run;
    NothingSpent(lim, t);
    RunAccounts(EMPTY, lim, run, map[], t, now);
    LogIsSpent(EMPTY, lim, run, map[], ip, kind);
    log := LogOf(EMPTY, lim, run, map[]);
    assert Grants(map[], ip, kind) == [];
    assert [] + SpentAt(EMPTY, lim, run, ip, kind) == SpentAt(EMPTY, lim, run, ip, kind);
  }

  /** After any run, what an address has spent is ordered, within bounds, and what the table answers from. */
  lemma SpentIsLogged(lim: Limits, run: seq<Timed>, t: int, now: int, ip: string, kind: Kind)
    requires Clocked(run, t, now)
    ensures var ts := SpentAt(EMPTY, lim, run, ip, kind);
            && Ordered(ts, now) && (forall a :: InWindow(ts, a, lim.rateWindowMs) <= Cap(lim, kind))
            && (Allow(Run(EMPTY, lim, run).rate, lim, ip, kind, now).allowed <==> |Fresh(ts, now, lim.rateWindowMs)| < Cap(lim, kind))
  {
    hide Step, Spends, SpentAt, Run, Allow, Fresh, Ordered, InWindow;
    var log := RunIsLogged(lim, run, t, now, ip, kind);
    var ts := SpentAt(EMPTY, lim, run, ip, kind);
    assert Ordered(Grants(log, ip, kind), now);
    assert forall a :: InWindow(ts, a, lim.rateWindowMs) <= Cap(lim, kind);
    AskKeepsAgreement(Run(EMPTY, lim, run).rate, log, lim, now, Ask(ip, kind, now));
  }

  // ----- the results -----

  /**
   * On any run from the start, in every stretch of rateWindowMs, an address has at most joinsPerWindow joins answered
   * READY, and at most roomCreatesPerWindow hellos that created a room or found it taken.
   */
  lemma AddressesAreCapped(lim: Limits, run: seq<Timed>, t: int, now: int, ip: string, a: int)
    requires Clocked(run, t, now)
    ensures InWindow(SpentAt(EMPTY, lim, run, ip, Joins), a, lim.rateWindowMs) <= lim.joinsPerWindow
    ensures InWindow(SpentAt(EMPTY, lim, run, ip, Creates), a, lim.rateWindowMs) <= lim.roomCreatesPerWindow
  {
    SpentIsLogged(lim, run, t, now, ip, Joins);
    SpentIsLogged(lim, run, t, now, ip, Creates);
  }

  /** How many of an address's allowances were spent in the rateWindowMs up to now. */
  function Recent(lim: Limits, run: seq<Timed>, now: int, ip: string, kind: Kind): nat {
    InWindow(SpentAt(EMPTY, lim, run, ip, kind), now - lim.rateWindowMs + 1, lim.rateWindowMs)
  }

  /**
   * After any run, sweeps and all, a peer's first hello is answered READY exactly when its room exists and has a place
   * and its address has joined fewer than joinsPerWindow times in the last rateWindowMs; otherwise it is told the
   * first of these that fails.
   */
  lemma JoinIsWelcomeExactlyWhen(lim: Limits, run: seq<Timed>, t: int, now: int, sock: Socket, id: string)
    requires Clocked(run, t, now) && sock !in Run(EMPTY, lim, run).attached
    ensures var reg := Run(EMPTY, lim, run);
            var o := Step(reg, lim, now, HelloEvent(sock, Hello(PeerRole, id, PROTOCOL_VERSION)));
            var recent := Recent(lim, run, now, sock.ip, Joins);
            if id !in reg.rooms then TurnedAway(o, sock, NoSuchRoom)
            else if |reg.rooms[id].peers| >= lim.maxPeersPerRoom then TurnedAway(o, sock, RoomFull)
            else if recent >= lim.joinsPerWindow then TurnedAway(o, sock, RateLimited)
            else Welcomed(o, sock) && id in o.reg.rooms && sock in o.reg.rooms[id].peers.Values
  {
    hide Allow, Run, SpentAt;
    SpentIsLogged(lim, run, t, now, sock.ip, Joins);
    FreshIsLastWindow(SpentAt(EMPTY, lim, run, sock.ip, Joins), now, lim.rateWindowMs);
    var room := Run(EMPTY, lim, run).rooms;
    if id in room { assert Join(room[id], sock).room.peers[room[id].nextConnId] == sock; }
  }

  /**
   * A host's first hello is answered READY exactly when it claims a pending room before its deadline, whatever its
   * address has spent, or when there is a place for a room, fewer than roomCreatesPerWindow were spent in the last
   * rateWindowMs, and the room does not exist.
   */
  lemma HostIsWelcomeExactlyWhen(lim: Limits, run: seq<Timed>, t: int, now: int, sock: Socket, id: string)
    requires Clocked(run, t, now) && sock !in Run(EMPTY, lim, run).attached
    ensures var reg := Run(EMPTY, lim, run);
            var o := Step(reg, lim, now, HelloEvent(sock, Hello(HostRole, id, PROTOCOL_VERSION)));
            var recent := Recent(lim, run, now, sock.ip, Creates);
            if id in reg.rooms && reg.rooms[id].deadline.Some? && now < reg.rooms[id].deadline.value then
              Welcomed(o, sock) && id in o.reg.rooms && o.reg.rooms[id].host == sock && o.reg.rate == reg.rate
            else if |reg.rooms| >= lim.maxRooms then TurnedAway(o, sock, ServerFull)
            else if recent >= lim.roomCreatesPerWindow then TurnedAway(o, sock, RateLimited)
            else if id in reg.rooms then TurnedAway(o, sock, RoomExists)
            else Welcomed(o, sock) && id in o.reg.rooms && o.reg.rooms[id] == Room(sock, map[], 1, None)
  {
    hide Allow, Run, SpentAt;
    SpentIsLogged(lim, run, t, now, sock.ip, Creates);
    FreshIsLastWindow(SpentAt(EMPTY, lim, run, sock.ip, Creates), now, lim.rateWindowMs);
    if id in Run(EMPTY, lim, run).rooms { ClaimWelcomes(Run(EMPTY, lim, run), id, sock); }
  }

  /** A second hello, or one of another version, is refused for that and counts for nothing. */
  lemma OddHelloIsRefused(reg: Registry, lim: Limits, now: int, sock: Socket, hello: Hello)
    requires sock in reg.attached || hello.proto != 1
    ensures var o := Step(reg, lim, now, HelloEvent(sock, hello));
            o.reg == reg && TurnedAway(o, sock, if sock in reg.attached then BadHello else ProtoMismatch)
    ensures forall ip, kind :: !Spends(reg, lim, now, HelloEvent(sock, hello), ip, kind)
  {
  }

  /** A sweep forgets exactly the addresses that have spent nothing in the last rateWindowMs. */
  lemma SweepForgetsTheIdle(lim: Limits, run: seq<Timed>, t: int, now: int, order: seq<string>, ip: string)
    requires Clocked(run, t, now)
    ensures var reg := Run(EMPTY, lim, run);
            ip in Step(reg, lim, now, SweepEvent(order)).reg.rate
            <==> ip in reg.rate && (Recent(lim, run, now, ip, Joins) > 0 || Recent(lim, run, now, ip, Creates) > 0)
  {
    var reg := Run(EMPTY, lim, run);
    OtherKeepsRates(reg, lim, now, SweepEvent(order));
    FreshOfTable(lim, run, t, now, ip, Joins);
    FreshOfTable(lim, run, t, now, ip, Creates);
    hide Run, SpentAt, Step;
    if ip in reg.rate {
      StaleExactlyWhen(reg.rate[ip].creates, now, lim.rateWindowMs);
      StaleExactlyWhen(reg.rate[ip].joins, now, lim.rateWindowMs);
    }
  }

  lemma FreshOfTable(lim: Limits, run: seq<Timed>, t: int, now: int, ip: string, kind: Kind)
    requires Clocked(run, t, now)
    ensures |Fresh(Times(BucketOf(Run(EMPTY, lim, run).rate, ip), kind), now, lim.rateWindowMs)| == Recent(lim, run, now, ip, kind)
  {
    hide Step, Spends, SpentAt, Run, Fresh, Ordered, InWindow;
    SpentIsLogged(lim, run, t, now, ip, kind);
    FreshIsLastWindow(SpentAt(EMPTY, lim, run, ip, kind), now, lim.rateWindowMs);
    var log := RunIsLogged(lim, run, t, now, ip, kind);
    assert Fresh(Times(BucketOf(Run(EMPTY, lim, run).rate, ip), kind), now, lim.rateWindowMs) == Fresh(Grants(log, ip, kind), now, lim.rateWindowMs);
  }
}
