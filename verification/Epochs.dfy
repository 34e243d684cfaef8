/**
 * A room over any number of graceful handoffs: who hosts at which epoch, and what each session settles on.
 * The relay's part is its room record; its own behaviour is modules RelayRoom to RelayHandoff.
 */
module Epochs {
  import opened Bytes
  import opened RoomSessions

  datatype Name = Name(successor: string, epoch: nat)

  /** A session, the host_transfer messages on their way to it, and the epochs it has settled on so far. */
  datatype Member = Member(session: Session, inbox: seq<Name>, settled: seq<nat>)

  datatype Room = Room(epoch: nat, host: string, pending: bool)

  /** Who took the host slot at which epoch, and under which peer id. */
  datatype Tenure = Tenure(epoch: nat, host: string, peerId: string)

  /** `names` holds every successor named for an epoch so far. */
  datatype World = World(
    room: Option<Room>,
    members: map<string, Member>,
    names: map<nat, set<string>>,
    usedIds: set<string>,
    tenures: seq<Tenure>
  )

  datatype Action =
    | Enter(sid: string, peerId: string)
    | NameSuccessor(successor: string)
    | Hear(sid: string)
    | Claim(sid: string)
    | Serve(sid: string)
    | Refused(sid: string)
    | Rejoin(sid: string, peerId: string)
    | GiveUp(sid: string)
    | Leaves(sid: string)
    | RoomEnds
    | StrayClaim(sid: string, peerId: string)

  function Founded(sid: string, peerId: string): World {
    World(Some(Room(0, sid, false)), map[sid := Member(Opened(peerId, 0), [], [0])], map[], {peerId}, [Tenure(0, sid, peerId)])
  }

  /** Random peer ids are new. A host may name whom it likes, and newcomers may still be admitted after it did. */
  predicate Enabled(w: World, a: Action) {
    match a
    case Enter(sid, id) => w.room.Some? && sid !in w.members && id !in w.usedIds
    case NameSuccessor(succ) => w.room.Some? && succ in w.usedIds
    case Hear(sid) => sid in w.members && w.members[sid].inbox != [] && w.members[sid].session.client.Some?
    case Claim(sid) => w.room.Some? && w.room.value.pending && sid in w.members && w.members[sid].session.task.Promoting?
    case Serve(sid) => sid in w.members && w.members[sid].session.task.Starting?
    case Refused(sid) => sid in w.members && (w.members[sid].session.task.Promoting? || w.members[sid].session.task.Starting?)
    case Rejoin(sid, id) => w.room.Some? && sid in w.members && w.members[sid].session.task.Rehoming? && id !in w.usedIds
    case GiveUp(sid) => sid in w.members && w.members[sid].session.task.Rehoming?
    case Leaves(sid) => sid in w.members
    case RoomEnds => true
    case StrayClaim(sid, id) => w.room.Some? && w.room.value.pending && sid !in w.members && id !in w.usedIds
  }

  // ----- what happens to one member -----

  /** A change of session; coming to rest under a host adds that host's epoch to what was settled on. */
  function Became(m: Member, s: Session): Member {
    m.(session := s,
       settled := if Epoch(s).Some? && Epoch(m.session).None? then m.settled + [Epoch(s).value] else m.settled)
  }

  /** A name goes to the peers of the host that speaks it. */
  function Told(m: Member, n: Name): Member {
    if m.session.client.Some? && m.session.client.value.epoch + 1 == n.epoch then m.(inbox := m.inbox + [n]) else m
  }

  /** Acting on a name abandons the connection it came over, and what else was on it. */
  function Heard(m: Member): Member
    requires m.inbox != []
  {
    var s := OnHostTransfer(m.session, m.inbox[0].successor, m.inbox[0].epoch);
    m.(session := s, inbox := if s.client.None? then [] else m.inbox[1..])
  }

  function NamedFor(names: map<nat, set<string>>, epoch: nat): set<string> { if epoch in names then names[epoch] else {} }

  function AlsoNamed(names: map<nat, set<string>>, n: Name): map<nat, set<string>> {
    names[n.epoch := NamedFor(names, n.epoch) + {n.successor}]
  }

  // ----- the room -----

  function Next(w: World, a: Action): World
    requires Enabled(w, a)
  {
    match a
    case Enter(sid, id) =>
      var e := w.room.value.epoch;
      w.(members := w.members[sid := Member(Joined(id, e), [], [e])], usedIds := w.usedIds + {id})
    case NameSuccessor(succ) =>
      var n := Name(succ, w.room.value.epoch + 1);
      w.(room := Some(w.room.value.(pending := true)), names := AlsoNamed(w.names, n),
         members := map sid | sid in w.members :: Told(w.members[sid], n))
    case Hear(sid) => w.(members := w.members[sid := Heard(w.members[sid])])
    case Claim(sid) =>
      var m := w.members[sid];
      var members := w.members[sid := Became(m, LinkOpened(m.session))];
      if m.session.leaving then w.(members := members, room := None)
      else
        var e := m.session.task.epoch;
        w.(members := members, room := Some(Room(e, sid, false)), tenures := w.tenures + [Tenure(e, sid, m.session.task.peerId)])
    case Serve(sid) =>
      var m := w.members[sid];
      var w' := w.(members := w.members[sid := Became(m, ServerStarted(m.session))]);
      if m.session.leaving && w.room.Some? && w.room.value.host == sid then w'.(room := None) else w'
    case Refused(sid) => w.(members := w.members[sid := Became(w.members[sid], Ended(w.members[sid].session))])
    case Rejoin(sid, id) =>
      var m := w.members[sid];
      w.(members := w.members[sid := Became(m, Rejoined(m.session, id, w.room.value.epoch))], usedIds := w.usedIds + {id})
    case GiveUp(sid) => w.(members := w.members[sid := Became(w.members[sid], Ended(w.members[sid].session))])
    case Leaves(sid) => w.(members := w.members[sid := Became(w.members[sid], Leave(w.members[sid].session))])
    case RoomEnds => w.(room := None)
    case StrayClaim(sid, id) =>
      w.(room := Some(Room(0, sid, false)), members := w.members[sid := Member(Opened(id, 0), [], [0])],
         usedIds := w.usedIds + {id}, tenures := w.tenures + [Tenure(0, sid, id)])
  }

  ghost predicate Reaches(from: World, run: seq<Action>, to: World)
    decreases |run|
  {
    if run == [] then to == from else Enabled(from, run[0]) && Reaches(Next(from, run[0]), run[1..], to)
  }

  // ----- each session's epochs rise -----

  ghost predicate Rising(es: seq<nat>) {
    forall i, j | 0 <= i < j < |es| :: es[i] < es[j]
  }

  /** What is on its way to a session, or in progress in it, is above everything it has settled on. */
  ghost predicate MemberInv(m: Member) {
    && m.settled != [] && Rising(m.settled)
    && var last := m.settled[|m.settled| - 1];
       var s := m.session;
       && (Epoch(s).Some? ==> Epoch(s).value == last)
       && (s.client.Some? ==> s.server.None? && s.task == NoTask && !s.transferring)
       && (s.server.Some? ==> s.task == NoTask)
       && (s.client.None? ==> m.inbox == [])
       && (s.client.Some? ==> forall i | 0 <= i < |m.inbox| :: m.inbox[i].epoch == s.client.value.epoch + 1)
       && (s.task != NoTask ==> s.task.epoch == last + 1)
  }

  ghost predicate MembersInv(w: World) { forall sid | sid in w.members :: MemberInv(w.members[sid]) }

  lemma AppendRising(es: seq<nat>, e: nat)
    requires es != [] && Rising(es) && es[|es| - 1] < e
    ensures Rising(es + [e])
  {
    assert forall i | 0 <= i < |es| :: es[i] <= es[|es| - 1];
  }

  lemma HeardKeeps(m: Member)
    requires MemberInv(m) && m.inbox != [] && m.session.client.Some?
    ensures MemberInv(Heard(m)) && Heard(m).settled == m.settled
  {
  }

  lemma ToldKeeps(m: Member, n: Name)
    requires MemberInv(m)
    ensures MemberInv(Told(m, n)) && Told(m, n).settled == m.settled
  {
  }

  lemma LinkedKeeps(m: Member)
    requires MemberInv(m) && m.session.task.Promoting?
    ensures var r := Became(m, LinkOpened(m.session)); MemberInv(r) && r.settled == m.settled
  {
  }

  lemma ServedKeeps(m: Member)
    requires MemberInv(m) && m.session.task.Starting?
    ensures var r := Became(m, ServerStarted(m.session)); MemberInv(r) && m.settled <= r.settled
  {
    AppendRising(m.settled, m.session.task.epoch);
  }

  lemma RejoinedKeeps(m: Member, id: string, epoch: nat)
    requires MemberInv(m) && m.session.task.Rehoming?
    ensures var r := Became(m, Rejoined(m.session, id, epoch)); MemberInv(r) && m.settled <= r.settled
  {
    if epoch >= m.session.task.epoch { AppendRising(m.settled, epoch); }
  }

  lemma LeftKeeps(m: Member)
    requires MemberInv(m)
    ensures MemberInv(Became(m, Leave(m.session))) && Became(m, Leave(m.session)).settled == m.settled
    ensures m.session.task != NoTask ==>
              MemberInv(Became(m, Ended(m.session))) && Became(m, Ended(m.session)).settled == m.settled
  {
  }

  /** What one step makes of one member. */
  ghost predicate Steps(w: World, a: Action, sid: string, m: Member, r: Member)
    requires Enabled(w, a)
  {
    || r == m
    || (a.NameSuccessor? && r == Told(m, Name(a.successor, w.room.value.epoch + 1)))
    || (a == Hear(sid) && m.inbox != [] && m.session.client.Some? && r == Heard(m))
    || (a == Claim(sid) && m.session.task.Promoting? && r == Became(m, LinkOpened(m.session)))
    || (a == Serve(sid) && m.session.task.Starting? && r == Became(m, ServerStarted(m.session)))
    || (a.Rejoin? && a.sid == sid && m.session.task.Rehoming? && r == Became(m, Rejoined(m.session, a.peerId, w.room.value.epoch)))
    || (m.session.task != NoTask && r == Became(m, Ended(m.session)))
    || r == Became(m, Leave(m.session))
  }

  lemma NextSteps(w: World, a: Action, sid: string)
    requires Enabled(w, a) && sid in w.members
    ensures sid in Next(w, a).members && Steps(w, a, sid, w.members[sid], Next(w, a).members[sid])
  {
    hide Told, Heard, Became, LinkOpened, ServerStarted, Rejoined, Ended, Leave;
  }

  lemma NewMember(w: World, a: Action, sid: string)
    requires Enabled(w, a) && sid in Next(w, a).members && sid !in w.members
    ensures MemberInv(Next(w, a).members[sid])
  {
    hide Told, Heard, Became, LinkOpened, ServerStarted, Rejoined, Ended, Leave;
  }

  lemma StepsKeep(w: World, a: Action, sid: string, m: Member, r: Member)
    requires Enabled(w, a) && MemberInv(m) && Steps(w, a, sid, m, r)
    ensures MemberInv(r) && m.settled <= r.settled
  {
    if a.NameSuccessor? { ToldKeeps(m, Name(a.successor, w.room.value.epoch + 1)); }
    if m.inbox != [] && m.session.client.Some? { HeardKeeps(m); }
    if m.session.task.Promoting? { LinkedKeeps(m); }
    if m.session.task.Starting? { ServedKeeps(m); }
    if a.Rejoin? && m.session.task.Rehoming? { RejoinedKeeps(m, a.peerId, w.room.value.epoch); }
    LeftKeeps(m);
    hide MemberInv, Told, Heard, Became, LinkOpened, ServerStarted, Rejoined, Ended, Leave;
  }

  /** Over any run, strays and all, every session settles on ever higher epochs: no handoff takes anyone back. */
  lemma {:induction false} SettledEpochsRise(from: World, run: seq<Action>, to: World)
    requires MembersInv(from) && Reaches(from, run, to)
    ensures MembersInv(to)
    ensures forall sid | sid in from.members :: sid in to.members && from.members[sid].settled <= to.members[sid].settled
    decreases |run|
  {
    if run != [] {
      var mid := Next(from, run[0]);
      forall sid | sid in from.members
        ensures sid in mid.members && MemberInv(mid.members[sid]) && from.members[sid].settled <= mid.members[sid].settled
      {
        NextSteps(from, run[0], sid);
        StepsKeep(from, run[0], sid, from.members[sid], mid.members[sid]);
      }
      forall sid | sid in mid.members && sid !in from.members ensures MemberInv(mid.members[sid]) { NewMember(from, run[0], sid); }
      SettledEpochsRise(mid, run[1..], to);
    }
  }

  // ----- each session shows what it is -----

  ghost predicate AllTell(w: World) { forall sid | sid in w.members :: Tells(w.members[sid].session) }

  lemma StepsTell(w: World, a: Action, sid: string, m: Member, r: Member)
    requires Enabled(w, a) && MemberInv(m) && Tells(m.session) && Steps(w, a, sid, m, r)
    ensures Tells(r.session)
  {
  }

  lemma NewTells(w: World, a: Action, sid: string)
    requires Enabled(w, a) && sid in Next(w, a).members && sid !in w.members
    ensures Tells(Next(w, a).members[sid].session)
  {
    hide Told, Heard, Became, LinkOpened, ServerStarted, Rejoined, Ended, Leave;
  }

  /** Over any run, every session's phase shows what it is: hosting, in a room or on its way, or out. */
  lemma {:induction false} PhasesTell(from: World, run: seq<Action>, to: World)
    requires MembersInv(from) && AllTell(from) && Reaches(from, run, to)
    ensures AllTell(to)
    decreases |run|
  {
    if run != [] {
      var mid := Next(from, run[0]);
      forall sid | sid in mid.members ensures Tells(mid.members[sid].session) {
        if sid in from.members {
          NextSteps(from, run[0], sid);
          StepsTell(from, run[0], sid, from.members[sid], mid.members[sid]);
        } else {
          NewTells(from, run[0], sid);
        }
      }
      StepKeepsMembers(from, run[0]);
      hide Next, Enabled, MembersInv, Tells;
      PhasesTell(mid, run[1..], to);
    }
  }

  // ----- a handoff, start to finish -----

  lemma {:induction false} Joins(a: World, xs: seq<Action>, b: World, ys: seq<Action>, c: World)
    requires Reaches(a, xs, b) && Reaches(b, ys, c)
    ensures Reaches(a, xs + ys, c)
    decreases |xs|
  {
    hide Next, Enabled;
    if xs == [] {
      assert xs + ys == ys;
    } else {
      assert (xs + ys)[1..] == xs[1..] + ys;
      Joins(Next(a, xs[0]), xs[1..], b, ys, c);
    }
  }

  lemma One(w: World, a: Action)
    requires Enabled(w, a)
    ensures Reaches(w, [a], Next(w, a))
  {
    hide Next, Enabled;
    assert [a][1..] == [] && Reaches(Next(w, a), [], Next(w, a));
  }

  lemma Two(w: World, a: Action, b: Action)
    requires Enabled(w, a) && Enabled(Next(w, a), b)
    ensures Reaches(w, [a, b], Next(Next(w, a), b))
  {
    hide Next, Enabled;
    One(w, a);
    One(Next(w, a), b);
    Joins(w, [a], Next(w, a), [b], Next(Next(w, a), b));
    assert [a] + [b] == [a, b];
  }

  /** A peer of the host of this epoch, settled, with nothing on its way to it. */
  ghost predicate AtRest(m: Member, id: string, epoch: nat) { m.session == Joined(id, epoch) && m.inbox == [] }

  lemma NamedAndHeard(w: World, a: string, id: string, b: string, other: string)
    requires w.room.Some? && a in w.members && b in w.members && a != b && id != other && id in w.usedIds
    requires AtRest(w.members[a], id, w.room.value.epoch) && AtRest(w.members[b], other, w.room.value.epoch)
    ensures var w1 := Next(w, NameSuccessor(id));
            var w2 := Next(w1, Hear(a));
            var w3, e := Next(w2, Hear(b)), w.room.value.epoch + 1;
            && Enabled(w, NameSuccessor(id)) && Enabled(w1, Hear(a)) && Enabled(w2, Hear(b))
            && w3.room == Some(w.room.value.(pending := true)) && w3.tenures == w.tenures && w3.usedIds == w.usedIds
            && a in w3.members && w3.members[a] == Member(Session(InRoom, false, true, None, None, Promoting(id, e)), [], w.members[a].settled)
            && b in w3.members && w3.members[b] == Member(Session(InRoom, false, true, None, None, Rehoming(e)), [], w.members[b].settled)
  {
  }

  lemma ClaimedAndServed(w: World, a: string, id: string, e: nat, b: string)
    requires w.room.Some? && w.room.value.pending && a in w.members && b in w.members && a != b
    requires w.members[a].session == Session(InRoom, false, true, None, None, Promoting(id, e))
    ensures var w1 := Next(w, Claim(a));
            var w2 := Next(w1, Serve(a));
            && Enabled(w, Claim(a)) && Enabled(w1, Serve(a))
            && w2.room == Some(Room(e, a, false)) && w2.tenures == w.tenures + [Tenure(e, a, id)] && w2.usedIds == w.usedIds
            && a in w2.members && w2.members[a].session == Opened(id, e) && w2.members[a].settled == w.members[a].settled + [e]
            && b in w2.members && w2.members[b] == w.members[b]
  {
  }

  lemma CameBack(w: World, b: string, e: nat, newId: string, a: string)
    requires w.room.Some? && w.room.value.epoch == e && b in w.members && a in w.members && a != b && newId !in w.usedIds
    requires w.members[b].session == Session(InRoom, false, true, None, None, Rehoming(e))
    ensures var r := Next(w, Rejoin(b, newId));
            && Enabled(w, Rejoin(b, newId)) && r.room == w.room && r.tenures == w.tenures
            && b in r.members && r.members[b].session == Joined(newId, e) && r.members[b].settled == w.members[b].settled + [e]
            && a in r.members && r.members[a] == w.members[a]
  {
  }

  /**
   * A handoff with nobody in its way: the named peer comes to host at the next epoch, under the id it was named by,
   * and another peer settles under it.
   */
  lemma HandoffCompletes(w: World, a: string, id: string, b: string, other: string, newId: string) returns (r: World)
    requires w.room.Some? && a in w.members && b in w.members && a != b && id != other && id in w.usedIds && newId !in w.usedIds
    requires AtRest(w.members[a], id, w.room.value.epoch) && AtRest(w.members[b], other, w.room.value.epoch)
    ensures Reaches(w, [NameSuccessor(id), Hear(a)] + [Hear(b), Claim(a)] + [Serve(a), Rejoin(b, newId)], r)
    ensures var e := w.room.value.epoch + 1;
            && r.room == Some(Room(e, a, false)) && r.tenures == w.tenures + [Tenure(e, a, id)]
            && a in r.members && r.members[a].session == Opened(id, e) && r.members[a].settled == w.members[a].settled + [e]
            && b in r.members && r.members[b].session == Joined(newId, e) && r.members[b].settled == w.members[b].settled + [e]
  {
    hide Next, Enabled, AtRest, Reaches;
    NamedAndHeard(w, a, id, b, other);
    var w1 := Next(w, NameSuccessor(id));
    var w2 := Next(w1, Hear(a));
    var w3 := Next(w2, Hear(b));
    ClaimedAndServed(w3, a, id, w.room.value.epoch + 1, b);
    var w4 := Next(w3, Claim(a));
    var w5 := Next(w4, Serve(a));
    CameBack(w5, b, w.room.value.epoch + 1, newId, a);
    r := Next(w5, Rejoin(b, newId));
    Two(w, NameSuccessor(id), Hear(a));
    Two(w2, Hear(b), Claim(a));
    Two(w4, Serve(a), Rejoin(b, newId));
    Joins(w, [NameSuccessor(id), Hear(a)], w2, [Hear(b), Claim(a)], w4);
    Joins(w, [NameSuccessor(id), Hear(a)] + [Hear(b), Claim(a)], w4, [Serve(a), Rejoin(b, newId)], r);
  }

  /** A successor that left while it was dialling, or while its server started, takes the room down with it; nobody hosts. */
  lemma LeftMidwayEndsTheRoom(w: World, sid: string)
    requires w.room.Some? && sid in w.members && w.members[sid].session.leaving
    ensures Enabled(w, Claim(sid)) ==> Next(w, Claim(sid)).room == None && Next(w, Claim(sid)).tenures == w.tenures
    ensures Enabled(w, Serve(sid)) && w.room.value.host == sid ==> Next(w, Serve(sid)).room == None
    ensures Enabled(w, RoomEnds) && Next(w, RoomEnds) == w.(room := None)
  {
  }

  /** An unnamed newcomer can take a pending room, and then hosts it at epoch 0. */
  lemma StraysCanTake(w: World, sid: string, id: string)
    requires w.room.Some? && w.room.value.pending && sid !in w.members && id !in w.usedIds
    ensures Enabled(w, StrayClaim(sid, id))
    ensures var r := Next(w, StrayClaim(sid, id));
            && r.room == Some(Room(0, sid, false)) && r.tenures == w.tenures + [Tenure(0, sid, id)] && r.usedIds == w.usedIds + {id}
            && sid in r.members && r.members[sid].session == Opened(id, 0)
  {
  }

  // ----- one host per epoch -----

  function TenureEpochs(ts: seq<Tenure>): seq<nat> { seq(|ts|, i requires 0 <= i < |ts| => ts[i].epoch) }

  /** The id a member answers to a name with, while it still can. */
  function OwnId(s: Session): Option<string> {
    if s.client.Some? then Some(s.client.value.peerId)
    else if s.task.Promoting? then Some(s.task.peerId)
    else None
  }

  ghost predicate Spoken(names: map<nat, set<string>>, n: Name) { n.successor in NamedFor(names, n.epoch) }

  /** What a member may hear or act on is what was named for that epoch. */
  ghost predicate HearsNames(m: Member, names: map<nat, set<string>>) {
    && (forall i | 0 <= i < |m.inbox| :: Spoken(names, m.inbox[i]))
    && (m.session.task.Promoting? ==> Spoken(names, Name(m.session.task.peerId, m.session.task.epoch)))
  }

  /** A live id is in use, and it is not a name whose epoch has already begun. */
  ghost predicate IdIsOwn(s: Session, usedIds: set<string>, names: map<nat, set<string>>, last: nat) {
    OwnId(s).Some? ==> OwnId(s).value in usedIds && forall e | 0 <= e <= last :: OwnId(s).value !in NamedFor(names, e)
  }

  ghost predicate DistinctIds(members: map<string, Member>) {
    forall s, t | s in members && t in members && s != t && OwnId(members[s].session).Some? ::
      OwnId(members[s].session) != OwnId(members[t].session)
  }

  ghost predicate NamesInv(w: World, last: nat) {
    && (forall e | e in w.names :: e <= last + 1 && w.names[e] <= w.usedIds)
    && DistinctIds(w.members)
    && (forall sid | sid in w.members :: HearsNames(w.members[sid], w.names))
    && (forall sid | sid in w.members :: IdIsOwn(w.members[sid].session, w.usedIds, w.names, last))
  }

  /** No epoch has two names. */
  ghost predicate OneName(names: map<nat, set<string>>) {
    forall e: nat, a, b | a in NamedFor(names, e) && b in NamedFor(names, e) :: a == b
  }

  /** Every host but the first was named for its epoch. */
  ghost predicate HostsAreNamed(ts: seq<Tenure>, names: map<nat, set<string>>) {
    forall i | 0 < i < |ts| :: ts[i].peerId in NamedFor(names, ts[i].epoch)
  }

  ghost predicate TenuresInv(w: World) {
    && w.tenures != [] && Rising(TenureEpochs(w.tenures)) && HostsAreNamed(w.tenures, w.names)
    && var last := w.tenures[|w.tenures| - 1].epoch; NamesInv(w, last) && (w.room.Some? ==> w.room.value.epoch == last)
  }

  /** A session that promotes itself is always about to open the very next epoch. */
  lemma PromotesToNext(w: World, sid: string)
    requires TenuresInv(w) && sid in w.members && w.members[sid].session.task.Promoting? && w.members[sid].session.client.None?
    ensures w.members[sid].session.task.epoch == w.tenures[|w.tenures| - 1].epoch + 1
  {
    var last := w.tenures[|w.tenures| - 1].epoch;
    var t := w.members[sid].session.task;
    assert HearsNames(w.members[sid], w.names) && IdIsOwn(w.members[sid].session, w.usedIds, w.names, last);
    assert Spoken(w.names, Name(t.peerId, t.epoch));
    assert t.epoch in w.names;
  }

  lemma AppendTenure(ts: seq<Tenure>, t: Tenure)
    requires ts != []
    ensures Rising(TenureEpochs(ts + [t])) <==> Rising(TenureEpochs(ts)) && ts[|ts| - 1].epoch < t.epoch
  {
    var es, es' := TenureEpochs(ts), TenureEpochs(ts + [t]);
    assert es' == es + [t.epoch];
    if Rising(es') {
      assert es'[|es| - 1] < es'[|es|];
      assert forall i, j | 0 <= i < j < |es| :: es[i] == es'[i] && es[j] == es'[j];
    }
    if Rising(es) && ts[|ts| - 1].epoch < t.epoch { AppendRising(es, t.epoch); }
  }

  /** A step that changes one member's session without giving it an id or a name it did not have. */
  lemma ChangeOne(w: World, sid: string, m: Member, last: nat)
    requires NamesInv(w, last) && sid in w.members
    requires OwnId(m.session) == OwnId(w.members[sid].session) || OwnId(m.session).None?
    requires HearsNames(m, w.names)
    ensures NamesInv(w.(members := w.members[sid := m]), last)
  {
    hide HearsNames, OwnId;
  }

  lemma AddOne(w: World, sid: string, m: Member, id: string, last: nat)
    requires NamesInv(w, last) && id !in w.usedIds
    requires OwnId(m.session) == Some(id) || OwnId(m.session).None?
    requires HearsNames(m, w.names)
    ensures NamesInv(w.(members := w.members[sid := m], usedIds := w.usedIds + {id}), last)
  {
    hide HearsNames, OwnId;
    var w' := w.(members := w.members[sid := m], usedIds := w.usedIds + {id});
    forall s | s in w.members && s != sid ensures OwnId(w.members[s].session) != Some(id) {
      assert IdIsOwn(w.members[s].session, w.usedIds, w.names, last);
    }
    forall s | s in w'.members ensures IdIsOwn(w'.members[s].session, w'.usedIds, w.names, last) {
      if s != sid { assert IdIsOwn(w.members[s].session, w.usedIds, w.names, last); }
    }
  }

  lemma HeardNames(m: Member, names: map<nat, set<string>>)
    requires HearsNames(m, names) && m.inbox != [] && m.session.client.Some? && m.session.task == NoTask
    ensures HearsNames(Heard(m), names)
    ensures OwnId(Heard(m).session) == OwnId(m.session) || OwnId(Heard(m).session).None?
  {
    assert Spoken(names, m.inbox[0]);
  }

  lemma MoreNames(names: map<nat, set<string>>, n: Name)
    ensures forall e: nat :: NamedFor(AlsoNamed(names, n), e) == NamedFor(names, e) + if e == n.epoch then {n.successor} else {}
  {
  }

  lemma NamingKeeps(w: World, successor: string, last: nat)
    requires NamesInv(w, last) && w.room.Some? && w.room.value.epoch == last && Enabled(w, NameSuccessor(successor))
    ensures NamesInv(Next(w, NameSuccessor(successor)), last)
  {
    hide OwnId;
    var n := Name(successor, last + 1);
    var w' := Next(w, NameSuccessor(successor));
    MoreNames(w.names, n);
    forall sid | sid in w.members
      ensures HearsNames(w'.members[sid], w'.names) && IdIsOwn(w'.members[sid].session, w.usedIds, w'.names, last)
      ensures w'.members[sid].session == w.members[sid].session
    {
      assert HearsNames(w.members[sid], w.names) && IdIsOwn(w.members[sid].session, w.usedIds, w.names, last);
      ToldHears(w.members[sid], n, w.names);
    }
    hide HearsNames, IdIsOwn, Told;
  }

  lemma ToldHears(m: Member, n: Name, names: map<nat, set<string>>)
    requires HearsNames(m, names)
    ensures HearsNames(Told(m, n), AlsoNamed(names, n))
  {
    MoreNames(names, n);
  }

  /** With one name for the epoch, a claim spends it: its bearer hosts, and nobody else can answer to it. */
  lemma ClaimSpendsTheName(w: World, sid: string, m: Member, id: string, last: nat)
    requires NamesInv(w, last) && OneName(w.names) && sid in w.members && id in NamedFor(w.names, last + 1)
    requires OwnId(w.members[sid].session) == Some(id)
    requires OwnId(m.session).None? && HearsNames(m, w.names)
    ensures NamesInv(w.(members := w.members[sid := m]), last + 1)
  {
    hide HearsNames, OwnId;
    var w' := w.(members := w.members[sid := m]);
    forall s | s in w'.members ensures IdIsOwn(w'.members[s].session, w.usedIds, w.names, last + 1) {
      if s != sid { assert IdIsOwn(w.members[s].session, w.usedIds, w.names, last); }
    }
  }

  lemma ClaimerFacts(w: World, sid: string)
    requires TenuresInv(w) && MembersInv(w) && Enabled(w, Claim(sid))
    ensures var m, last := w.members[sid], w.tenures[|w.tenures| - 1].epoch;
            var r := Became(m, LinkOpened(m.session));
            && m.session.task.epoch == last + 1 && OwnId(m.session) == Some(m.session.task.peerId)
            && m.session.task.peerId in NamedFor(w.names, last + 1)
            && HearsNames(r, w.names) && OwnId(r.session).None?
  {
    var m := w.members[sid];
    assert MemberInv(m) && HearsNames(m, w.names);
    PromotesToNext(w, sid);
  }

  lemma ClaimKeeps(w: World, sid: string)
    requires TenuresInv(w) && MembersInv(w) && Enabled(w, Claim(sid)) && OneName(w.names)
    ensures TenuresInv(Next(w, Claim(sid)))
  {
    var m, last := w.members[sid], w.tenures[|w.tenures| - 1].epoch;
    var r, t := Became(m, LinkOpened(m.session)), Tenure(last + 1, sid, m.session.task.peerId);
    ClaimerFacts(w, sid);
    hide HearsNames, OwnId, LinkOpened, Became, MemberInv, OneName, Rising, HostsAreNamed;
    if m.session.leaving {
      ChangeOne(w, sid, r, last);
      hide NamesInv;
    } else {
      ClaimSpendsTheName(w, sid, r, t.peerId, last);
      AppendTenure(w.tenures, t);
      NamedHost(w.tenures, t, w.names);
      hide NamesInv;
      var w', w'' := Next(w, Claim(sid)), w.(members := w.members[sid := r]);
      assert w' == w''.(room := Some(Room(last + 1, sid, false)), tenures := w.tenures + [t]);
      SameNames(w'', w', last + 1);
    }
  }

  lemma NamedHost(ts: seq<Tenure>, t: Tenure, names: map<nat, set<string>>)
    requires HostsAreNamed(ts, names) && t.peerId in NamedFor(names, t.epoch)
    ensures HostsAreNamed(ts + [t], names)
  {
  }

  lemma StillNamed(ts: seq<Tenure>, names: map<nat, set<string>>, n: Name)
    requires HostsAreNamed(ts, names)
    ensures HostsAreNamed(ts, AlsoNamed(names, n))
  {
    MoreNames(names, n);
  }

  lemma SameNames(w: World, w': World, last: nat)
    requires NamesInv(w, last) && w'.members == w.members && w'.names == w.names && w'.usedIds == w.usedIds
    ensures NamesInv(w', last)
  {
  }

  lemma HearKeeps(w: World, sid: string)
    requires TenuresInv(w) && MembersInv(w) && Enabled(w, Hear(sid))
    ensures TenuresInv(Next(w, Hear(sid)))
  {
    hide Heard, Rising, HostsAreNamed, OwnId;
    var m := w.members[sid];
    assert MemberInv(m) && HearsNames(m, w.names);
    HeardNames(m, w.names);
    hide HearsNames;
    ChangeOne(w, sid, Heard(m), w.tenures[|w.tenures| - 1].epoch);
    hide NamesInv;
  }

  lemma RejoinerFacts(m: Member, names: map<nat, set<string>>, id: string, epoch: nat)
    requires MemberInv(m) && HearsNames(m, names) && m.session.task.Rehoming?
    ensures var r := Became(m, Rejoined(m.session, id, epoch));
            HearsNames(r, names) && (OwnId(r.session) == Some(id) || OwnId(r.session).None?)
  {
  }

  lemma RejoinKeeps(w: World, sid: string, id: string)
    requires TenuresInv(w) && MembersInv(w) && Enabled(w, Rejoin(sid, id))
    ensures TenuresInv(Next(w, Rejoin(sid, id)))
  {
    hide HearsNames, Became, Rejoined, OwnId, Rising, HostsAreNamed, MemberInv;
    var m := w.members[sid];
    RejoinerFacts(m, w.names, id, w.room.value.epoch);
    AddOne(w, sid, Became(m, Rejoined(m.session, id, w.room.value.epoch)), id, w.tenures[|w.tenures| - 1].epoch);
    hide NamesInv;
  }

  /** What serving, giving up or leaving makes of a member. */
  function Settling(m: Member, a: Action): Member {
    Became(m, if a.Leaves? then Leave(m.session) else if a.Serve? then ServerStarted(m.session) else Ended(m.session))
  }

  lemma SettlerFacts(m: Member, names: map<nat, set<string>>, a: Action)
    requires MemberInv(m) && HearsNames(m, names)
    ensures var r := Settling(m, a); HearsNames(r, names) && (OwnId(r.session) == OwnId(m.session) || OwnId(r.session).None?)
  {
  }

  lemma SettlingKeeps(w: World, a: Action)
    requires TenuresInv(w) && MembersInv(w) && Enabled(w, a) && (a.Refused? || a.GiveUp? || a.Leaves? || a.Serve?)
    ensures TenuresInv(Next(w, a))
  {
    hide HearsNames, Became, Leave, Ended, ServerStarted, OwnId, Rising, HostsAreNamed, MemberInv;
    var m := w.members[a.sid];
    SettlerFacts(m, w.names, a);
    var last, r := w.tenures[|w.tenures| - 1].epoch, Settling(m, a);
    ChangeOne(w, a.sid, r, last);
    hide NamesInv;
    var w', w'' := Next(w, a), w.(members := w.members[a.sid := r]);
    assert w' == w''.(room := w'.room);
    SameNames(w'', w', last);
  }

  lemma NamedStepKeeps(w: World, a: Action)
    requires TenuresInv(w) && MembersInv(w) && Enabled(w, a) && !a.StrayClaim? && OneName(w.names)
    ensures TenuresInv(Next(w, a))
  {
    hide NamesInv, Rising, MemberInv, HostsAreNamed;
    var last := w.tenures[|w.tenures| - 1].epoch;
    match a
    case Enter(sid, id) => AddOne(w, sid, Member(Joined(id, last), [], [last]), id, last);
    case NameSuccessor(succ) =>
      NamingKeeps(w, succ, last);
      StillNamed(w.tenures, w.names, Name(succ, last + 1));
    case Claim(sid) => ClaimKeeps(w, sid);
    case RoomEnds => SameNames(w, Next(w, a), last);
    case Hear(sid) => HearKeeps(w, sid);
    case Rejoin(sid, id) => RejoinKeeps(w, sid, id);
    case _ => SettlingKeeps(w, a);
  }

  // ----- whole runs -----

  lemma {:induction false} TenuresGrow(from: World, run: seq<Action>, to: World)
    requires Reaches(from, run, to)
    ensures from.tenures <= to.tenures
    ensures forall e: nat :: NamedFor(from.names, e) <= NamedFor(to.names, e)
    decreases |run|
  {
    if run != [] {
      if run[0].NameSuccessor? { MoreNames(from.names, Name(run[0].successor, from.room.value.epoch + 1)); }
      TenuresGrow(Next(from, run[0]), run[1..], to);
    }
  }

  lemma FewerNames(names: map<nat, set<string>>, names': map<nat, set<string>>)
    requires OneName(names') && forall e: nat :: NamedFor(names, e) <= NamedFor(names', e)
    ensures OneName(names)
  {
  }

  lemma PrefixRises(a: seq<Tenure>, b: seq<Tenure>)
    requires a <= b && Rising(TenureEpochs(b))
    ensures Rising(TenureEpochs(a))
  {
    assert forall i | 0 <= i < |a| :: TenureEpochs(a)[i] == TenureEpochs(b)[i];
  }

  lemma StepKeepsMembers(w: World, a: Action)
    requires MembersInv(w) && Enabled(w, a)
    ensures MembersInv(Next(w, a))
  {
    assert Reaches(Next(w, a), [], Next(w, a));
    assert [a][1..] == [];
    SettledEpochsRise(w, [a], Next(w, a));
  }

  lemma {:induction false} NamedRunKeeps(from: World, run: seq<Action>, to: World)
    requires TenuresInv(from) && MembersInv(from) && Reaches(from, run, to) && OneName(to.names)
    requires forall i | 0 <= i < |run| :: !run[i].StrayClaim?
    ensures TenuresInv(to) && MembersInv(to)
    decreases |run|
  {
    if run != [] {
      var mid := Next(from, run[0]);
      TenuresGrow(from, run, to);
      FewerNames(from.names, to.names);
      NamedStepKeeps(from, run[0]);
      StepKeepsMembers(from, run[0]);
      assert forall i | 0 < i < |run| :: run[i] == run[1..][i - 1];
      hide TenuresInv, MembersInv, Next, OneName;
      NamedRunKeeps(mid, run[1..], to);
    }
  }

  lemma {:induction false} StrayBreaks(from: World, run: seq<Action>, to: World, k: nat)
    requires from.tenures != [] && Reaches(from, run, to) && k < |run| && run[k].StrayClaim?
    ensures !Rising(TenureEpochs(to.tenures))
    decreases |run|
  {
    var mid := Next(from, run[0]);
    TenuresGrow(mid, run[1..], to);
    if k == 0 {
      AppendTenure(from.tenures, Tenure(0, run[0].sid, run[0].peerId));
      if Rising(TenureEpochs(to.tenures)) { PrefixRises(mid.tenures, to.tenures); }
    } else {
      TenuresGrow(from, [run[0]], mid) by { assert [run[0]][1..] == [] && Reaches(mid, [], mid); }
      StrayBreaks(mid, run[1..], to, k - 1);
    }
  }

  /**
   * Over any number of handoffs in one room incarnation, if no two successors were named for one epoch: the
   * hosts' epochs strictly rise, so that each epoch has one host, exactly when nobody unnamed claimed; and then
   * each host after the first is the one named for its epoch.
   */
  lemma OneHostPerEpoch(from: World, run: seq<Action>, to: World)
    requires TenuresInv(from) && MembersInv(from) && Reaches(from, run, to) && OneName(to.names)
    ensures Rising(TenureEpochs(to.tenures)) <==> forall i | 0 <= i < |run| :: !run[i].StrayClaim?
    ensures (forall i | 0 <= i < |run| :: !run[i].StrayClaim?) ==> HostsAreNamed(to.tenures, to.names)
  {
    if forall i | 0 <= i < |run| :: !run[i].StrayClaim? {
      NamedRunKeeps(from, run, to);
    } else {
      var k :| 0 <= k < |run| && run[k].StrayClaim?;
      StrayBreaks(from, run, to, k);
    }
  }

  lemma FoundedIsInv(sid: string, peerId: string)
    ensures TenuresInv(Founded(sid, peerId)) && MembersInv(Founded(sid, peerId)) && AllTell(Founded(sid, peerId))
    ensures Founded(sid, peerId).room == Some(Room(0, sid, false)) && Founded(sid, peerId).tenures == [Tenure(0, sid, peerId)]
  {
  }

  // ----- when two successors are named for one epoch -----

  /** A claim by a session that was named for an epoch which has already begun. */
  predicate Late(w: World, a: Action) {
    a.Claim? && a.sid in w.members && w.members[a.sid].session.task.Promoting? && !w.members[a.sid].session.leaving
    && w.tenures != [] && w.members[a.sid].session.task.epoch <= w.tenures[|w.tenures| - 1].epoch
  }

  ghost predicate Timely(from: World, run: seq<Action>)
    requires Reaches(from, run, After(from, run))
    decreases |run|
  {
    run == [] || (!run[0].StrayClaim? && !Late(from, run[0]) && Timely(Next(from, run[0]), run[1..]))
  }

  /** Where a run leads, while its steps are enabled. */
  function After(from: World, run: seq<Action>): World
    decreases |run|
  {
    if run == [] || !Enabled(from, run[0]) then from else After(Next(from, run[0]), run[1..])
  }

  /**
   * Whoever is named, and however often: the hosts' epochs strictly rise exactly when no claim was stray and none
   * came late.
   */
  lemma {:induction false} EpochsRiseExactlyWhen(from: World, run: seq<Action>)
    requires from.tenures != [] && Rising(TenureEpochs(from.tenures)) && Reaches(from, run, After(from, run))
    ensures Rising(TenureEpochs(After(from, run).tenures)) <==> Timely(from, run)
    decreases |run|
  {
    if run != [] {
      var a, mid := run[0], Next(from, run[0]);
      TenuresGrow(mid, run[1..], After(from, run));
      if a.StrayClaim? { AppendTenure(from.tenures, Tenure(0, a.sid, a.peerId)); }
      if a.Claim? && !from.members[a.sid].session.leaving {
        var t := from.members[a.sid].session.task;
        AppendTenure(from.tenures, Tenure(t.epoch, a.sid, t.peerId));
      }
      if Rising(TenureEpochs(mid.tenures)) {
        EpochsRiseExactlyWhen(mid, run[1..]);
      } else if Rising(TenureEpochs(After(from, run).tenures)) {
        PrefixRises(mid.tenures, After(from, run).tenures);
      }
    }
  }

  /** A claim can only come late where two successors have been named for one epoch. */
  lemma LateClaimNeedsTwoNames(from: World, run: seq<Action>, w: World, a: Action)
    requires TenuresInv(from) && MembersInv(from) && Reaches(from, run, w) && Enabled(w, a) && Late(w, a)
    requires forall i | 0 <= i < |run| :: !run[i].StrayClaim?
    ensures !OneName(w.names)
  {
    if OneName(w.names) {
      NamedRunKeeps(from, run, w);
      assert MemberInv(w.members[a.sid]);
      PromotesToNext(w, a.sid);
    }
  }

  // ----- a room whose host names two successors -----

  function Busy(peerId: string): Session { Session(InRoom, false, true, None, None, Promoting(peerId, 1)) }

  /** Who is still to come is not in the room, and its id is unused. */
  predicate Fresh(w: World, sid: string, peerId: string) { sid !in w.members && peerId !in w.usedIds }

  ghost predicate AIsNamed(w: World) {
    && w.room == Some(Room(0, "h", true)) && w.tenures == [Tenure(0, "h", "ph")] && "pa" in NamedFor(w.names, 1)
    && "a" in w.members && w.members["a"] == Member(Joined("pa", 0), [Name("pa", 1)], [0])
    && Fresh(w, "b", "pb") && Fresh(w, "c", "pc")
  }

  lemma NameA(w: World) returns (w': World)
    requires w == Founded("h", "ph")
    ensures Reaches(w, [Enter("a", "pa"), NameSuccessor("pa")], w') && AIsNamed(w')
  {
    var w1 := Next(w, Enter("a", "pa"));
    w' := Next(w1, NameSuccessor("pa"));
    Two(w, Enter("a", "pa"), NameSuccessor("pa"));
  }

  ghost predicate BothNamed(w: World) {
    && w.room == Some(Room(0, "h", true)) && w.tenures == [Tenure(0, "h", "ph")] && {"pa", "pb"} <= NamedFor(w.names, 1)
    && "a" in w.members && w.members["a"] == Member(Joined("pa", 0), [Name("pa", 1), Name("pb", 1)], [0])
    && "b" in w.members && w.members["b"] == Member(Joined("pb", 0), [Name("pb", 1)], [0])
    && Fresh(w, "c", "pc")
  }

  lemma NameB(w: World) returns (w': World)
    requires AIsNamed(w)
    ensures Reaches(w, [Enter("b", "pb"), NameSuccessor("pb")], w') && BothNamed(w')
  {
    var w1 := Next(w, Enter("b", "pb"));
    w' := Next(w1, NameSuccessor("pb"));
    Two(w, Enter("b", "pb"), NameSuccessor("pb"));
  }

  ghost predicate BothDial(w: World) {
    && w.room == Some(Room(0, "h", true)) && w.tenures == [Tenure(0, "h", "ph")] && {"pa", "pb"} <= NamedFor(w.names, 1)
    && "a" in w.members && w.members["a"].session == Busy("pa")
    && "b" in w.members && w.members["b"].session == Busy("pb")
    && Fresh(w, "c", "pc")
  }

  lemma HearBoth(w: World) returns (w': World)
    requires BothNamed(w)
    ensures Reaches(w, [Hear("a"), Hear("b")], w') && BothDial(w')
  {
    var w1 := Next(w, Hear("a"));
    w' := Next(w1, Hear("b"));
    Two(w, Hear("a"), Hear("b"));
  }

  ghost predicate AHosts(w: World) {
    && w.room == Some(Room(1, "a", false)) && w.tenures == [Tenure(0, "h", "ph"), Tenure(1, "a", "pa")]
    && {"pa", "pb"} <= NamedFor(w.names, 1) && "b" in w.members && w.members["b"].session == Busy("pb")
    && Fresh(w, "c", "pc")
  }

  lemma AClaims(w: World) returns (w': World)
    requires BothDial(w)
    ensures Reaches(w, [Claim("a"), Serve("a")], w') && AHosts(w')
  {
    var w1 := Next(w, Claim("a"));
    w' := Next(w1, Serve("a"));
    Two(w, Claim("a"), Serve("a"));
  }

  ghost predicate BStillDials(w: World) {
    && w.room == Some(Room(1, "a", true)) && w.tenures == [Tenure(0, "h", "ph"), Tenure(1, "a", "pa")]
    && {"pa", "pb"} <= NamedFor(w.names, 1) && "b" in w.members && w.members["b"].session == Busy("pb")
  }

  lemma NameC(w: World) returns (w': World)
    requires AHosts(w)
    ensures Reaches(w, [Enter("c", "pc"), NameSuccessor("pc")], w') && BStillDials(w')
  {
    var w1 := Next(w, Enter("c", "pc"));
    w' := Next(w1, NameSuccessor("pc"));
    Two(w, Enter("c", "pc"), NameSuccessor("pc"));
    MoreNames(w1.names, Name("pc", 2));
  }

  lemma BClaims(w: World) returns (w': World)
    requires BStillDials(w)
    ensures Reaches(w, [Claim("b")], w') && w'.tenures == w.tenures + [Tenure(1, "b", "pb")]
    ensures w.tenures == [Tenure(0, "h", "ph"), Tenure(1, "a", "pa")]
  {
    One(w, Claim("b"));
    w' := Next(w, Claim("b"));
  }

  /** The host names a, then admits b and names it too. a takes over; when it in turn names c, b, still dialling, claims. */
  const NAMED_TWICE := [Enter("a", "pa"), NameSuccessor("pa")] + [Enter("b", "pb"), NameSuccessor("pb")]
                       + [Hear("a"), Hear("b")] + [Claim("a"), Serve("a")]
                       + [Enter("c", "pc"), NameSuccessor("pc")] + [Claim("b")]

  /** Nobody claims unnamed in it, and still two sessions come to host at epoch 1. */
  lemma TwoNamesTwoHosts() returns (to: World)
    ensures Reaches(Founded("h", "ph"), NAMED_TWICE, to)
    ensures to.tenures == [Tenure(0, "h", "ph"), Tenure(1, "a", "pa"), Tenure(1, "b", "pb")]
    ensures forall i | 0 <= i < |NAMED_TWICE| :: !NAMED_TWICE[i].StrayClaim?
  {
    hide Next, Founded, Reaches, AIsNamed, BothNamed, BothDial, AHosts;
    var w := Founded("h", "ph");
    var w1 := NameA(w);
    var w2 := NameB(w1);
    var run := [Enter("a", "pa"), NameSuccessor("pa")] + [Enter("b", "pb"), NameSuccessor("pb")];
    Joins(w, [Enter("a", "pa"), NameSuccessor("pa")], w1, [Enter("b", "pb"), NameSuccessor("pb")], w2);
    var w3 := HearBoth(w2);
    Joins(w, run, w2, [Hear("a"), Hear("b")], w3);
    var w4 := AClaims(w3);
    Joins(w, run + [Hear("a"), Hear("b")], w3, [Claim("a"), Serve("a")], w4);
    run := run + [Hear("a"), Hear("b")] + [Claim("a"), Serve("a")];
    var w5 := NameC(w4);
    Joins(w, run, w4, [Enter("c", "pc"), NameSuccessor("pc")], w5);
    to := BClaims(w5);
    Joins(w, run + [Enter("c", "pc"), NameSuccessor("pc")], w5, [Claim("b")], to);
  }
}
