/**
 * The failover coordinator (parked/failover.ts): the promotion loop over an arbitrary probe oracle,
 * the instance with its timers, cancellation and graceful transfer, and what N instances do together.
 */
module Failovers {
  import opened Bytes
  import opened Rosters
  import Signaling
  import Succession

  /** What a probe of one candidate brings back. */
  datatype Probe = Unreachable | Status(hostAlive: bool, epoch: nat)

  datatype Action =
    | Promote(epoch: nat)
    | ConnectHeir(heir: string, endpoint: Endpoint, expectedEpoch: nat)
    | ReconnectCurrent
    | RoomDead

  datatype Config = Config(self: string, epoch: nat)

  function HostPeerId(roster: seq<Entry>): Option<string> {
    if roster == [] then None else if roster[0].isHost then Some(roster[0].peerId) else HostPeerId(roster[1..])
  }

  function OtherThan(order: seq<string>, id: Option<string>): seq<string> {
    if order == [] then []
    else if Some(order[0]) == id then OtherThan(order[1..], id)
    else [order[0]] + OtherThan(order[1..], id)
  }

  function Order(roster: seq<Entry>): seq<string> {
    OtherThan(Succession.SuccessionOrder(Signaling.Candidates(roster)), HostPeerId(roster))
  }

  function EndpointOf(roster: seq<Entry>, id: string): Option<Endpoint> {
    var e := Get(roster, id);
    if e.Some? then e.value.inboundEndpoint else None
  }

  predicate Verified(roster: seq<Entry>, id: string) {
    var e := Get(roster, id);
    e.Some? && e.value.inboundVerified
  }

  function Max(a: nat, b: nat): nat { if a < b then b else a }

  function Heed(cfg: Config, id: string, endpoint: Endpoint, epoch: nat, alive: bool): Action {
    if alive && epoch <= cfg.epoch then ReconnectCurrent
    else ConnectHeir(id, endpoint, Max(cfg.epoch + 1, epoch))
  }

  /** The loop's answer from place i on, when nothing interrupts it. */
  function Decide(cfg: Config, roster: seq<Entry>, order: seq<string>, oracle: string -> Probe, i: nat): Action
    requires i <= |order|
    decreases |order| - i
  {
    if i == |order| then RoomDead
    else if order[i] == cfg.self then
      if Verified(roster, cfg.self) then Promote(cfg.epoch + 1) else Decide(cfg, roster, order, oracle, i + 1)
    else
      var endpoint := EndpointOf(roster, order[i]);
      if endpoint.None? then Decide(cfg, roster, order, oracle, i + 1)
      else match oracle(order[i])
        case Unreachable => Decide(cfg, roster, order, oracle, i + 1)
        case Status(alive, epoch) => Heed(cfg, order[i], endpoint.value, epoch, alive)
  }

  function Outcome(cfg: Config, roster: seq<Entry>, oracle: string -> Probe): Action {
    Decide(cfg, roster, Order(roster), oracle, 0)
  }

  /** The loop itself, asking the oracle as it goes. */
  method Run(cfg: Config, roster: seq<Entry>, oracle: string -> Probe) returns (action: Action)
    ensures action == Outcome(cfg, roster, oracle)
  {
    var order := Order(roster);
    var i := 0;
    while i < |order|
      invariant i <= |order|
      invariant Outcome(cfg, roster, oracle) == Decide(cfg, roster, order, oracle, i)
    {
      var candidate := order[i];
      i := i + 1;
      if candidate == cfg.self {
        if !Verified(roster, candidate) { continue; }
        return Promote(cfg.epoch + 1);
      }
      var endpoint := EndpointOf(roster, candidate);
      if endpoint.None? { continue; }
      var reply := oracle(candidate);
      if reply.Unreachable? { continue; }
      if reply.hostAlive && reply.epoch <= cfg.epoch { return ReconnectCurrent; }
      return ConnectHeir(candidate, endpoint.value, Max(cfg.epoch + 1, reply.epoch));
    }
    return RoomDead;
  }

  // ----- when one instance stops, and where -----

  /** At this place the loop stops: either it is our own turn, or the candidate has an endpoint and answers. */
  predicate StopsAt(cfg: Config, roster: seq<Entry>, order: seq<string>, oracle: string -> Probe, j: nat)
    requires j < |order|
  {
    if order[j] == cfg.self then Verified(roster, cfg.self)
    else EndpointOf(roster, order[j]).Some? && oracle(order[j]).Status?
  }

  function ActionAt(cfg: Config, roster: seq<Entry>, order: seq<string>, oracle: string -> Probe, j: nat): Action
    requires j < |order| && StopsAt(cfg, roster, order, oracle, j)
  {
    if order[j] == cfg.self then Promote(cfg.epoch + 1)
    else Heed(cfg, order[j], EndpointOf(roster, order[j]).value, oracle(order[j]).epoch, oracle(order[j]).hostAlive)
  }

  /** The outcome is what the first stopping place says, and room-dead exactly when there is none. */
  lemma {:induction false} FirstStopDecides(cfg: Config, roster: seq<Entry>, order: seq<string>, oracle: string -> Probe, i: nat, j: nat)
    requires i <= j <= |order| && forall k | i <= k < j :: !StopsAt(cfg, roster, order, oracle, k)
    requires j < |order| ==> StopsAt(cfg, roster, order, oracle, j)
    ensures Decide(cfg, roster, order, oracle, i) == if j < |order| then ActionAt(cfg, roster, order, oracle, j) else RoomDead
    decreases j - i
  {
    if i < j {
      assert !StopsAt(cfg, roster, order, oracle, i);
      FirstStopDecides(cfg, roster, order, oracle, i + 1, j);
    }
  }

  /**
   * The first candidate ahead of us that can be asked and answers decides: if the host lives and its epoch is no newer
   * than ours, reconnect; otherwise go to that candidate, expecting the newer of its epoch and our next.
   */
  lemma FirstAnswerIsHeeded(cfg: Config, roster: seq<Entry>, oracle: string -> Probe, j: nat)
    requires j < |Order(roster)| && Order(roster)[j] != cfg.self
    requires forall k | 0 <= k < j :: !StopsAt(cfg, roster, Order(roster), oracle, k)
    requires EndpointOf(roster, Order(roster)[j]).Some? && oracle(Order(roster)[j]).Status?
    ensures var order, answer := Order(roster), oracle(Order(roster)[j]);
            if answer.hostAlive && answer.epoch <= cfg.epoch then Outcome(cfg, roster, oracle) == ReconnectCurrent
            else
              && Outcome(cfg, roster, oracle).ConnectHeir? && Outcome(cfg, roster, oracle).heir == order[j]
              && Outcome(cfg, roster, oracle).endpoint == EndpointOf(roster, order[j]).value
              && Outcome(cfg, roster, oracle).expectedEpoch == if answer.epoch > cfg.epoch + 1 then answer.epoch else cfg.epoch + 1
  {
    FirstStopDecides(cfg, roster, Order(roster), oracle, 0, j);
  }

  lemma FirstStop(cfg: Config, roster: seq<Entry>, order: seq<string>, oracle: string -> Probe, i: nat) returns (j: nat)
    requires i <= |order|
    ensures i <= j <= |order| && (forall k | i <= k < j :: !StopsAt(cfg, roster, order, oracle, k))
    ensures j < |order| ==> StopsAt(cfg, roster, order, oracle, j)
  {
    j := i;
    while j < |order| && !StopsAt(cfg, roster, order, oracle, j)
      invariant i <= j <= |order| && forall k | i <= k < j :: !StopsAt(cfg, roster, order, oracle, k)
    {
      j := j + 1;
    }
  }

  /** Place m is our own, we are verified, and nobody ahead of it has answered us. */
  ghost predicate OwnTurn(cfg: Config, roster: seq<Entry>, order: seq<string>, oracle: string -> Probe, m: nat)
    requires m < |order|
  {
    order[m] == cfg.self && Verified(roster, cfg.self) && forall k | 0 <= k < m :: !StopsAt(cfg, roster, order, oracle, k)
  }

  ghost predicate NoRepeats(order: seq<string>) {
    forall i, j | 0 <= i < j < |order| :: order[i] != order[j]
  }

  /**
   * For any probe results whatever: an instance promotes exactly when it is in the order, is verified,
   * and got no answer from any candidate ahead of it.
   */
  lemma PromotesExactlyWhen(cfg: Config, roster: seq<Entry>, oracle: string -> Probe)
    requires NoRepeats(Order(roster))
    ensures Outcome(cfg, roster, oracle).Promote?
            <==> exists m | 0 <= m < |Order(roster)| :: OwnTurn(cfg, roster, Order(roster), oracle, m)
    ensures Outcome(cfg, roster, oracle).Promote? ==> Outcome(cfg, roster, oracle) == Promote(cfg.epoch + 1)
  {
    var order := Order(roster);
    var j := FirstStop(cfg, roster, order, oracle, 0);
    FirstStopDecides(cfg, roster, order, oracle, 0, j);
    if m :| 0 <= m < |order| && OwnTurn(cfg, roster, order, oracle, m) {
      assert StopsAt(cfg, roster, order, oracle, m);
      assert m == j;
    }
    if j < |order| && order[j] == cfg.self {
      assert OwnTurn(cfg, roster, order, oracle, j);
    }
  }

  lemma TurnByPlace(cfg: Config, roster: seq<Entry>, order: seq<string>, oracle: string -> Probe, m: nat)
    requires NoRepeats(order) && m < |order| && order[m] == cfg.self
    ensures (exists i | 0 <= i < |order| :: OwnTurn(cfg, roster, order, oracle, i))
            <==> Verified(roster, cfg.self)
                 && forall k | 0 <= k < m :: EndpointOf(roster, order[k]).None? || oracle(order[k]).Unreachable?
  {
    assert forall k | 0 <= k < m :: order[k] != cfg.self;
    assert forall i | 0 <= i < |order| && OwnTurn(cfg, roster, order, oracle, i) :: i == m;
    forall k | 0 <= k < m
      ensures StopsAt(cfg, roster, order, oracle, k) <==> EndpointOf(roster, order[k]).Some? && oracle(order[k]).Status?
    { }
    if Verified(roster, cfg.self) && forall k | 0 <= k < m :: EndpointOf(roster, order[k]).None? || oracle(order[k]).Unreachable? {
      assert OwnTurn(cfg, roster, order, oracle, m);
    }
  }

  /**
   * Split brain, for any probe results: with one shared roster, a peer ahead in the order and a peer
   * behind it both promote exactly when both are verified, neither is answered by anyone ahead of the
   * first, and the second is answered neither by the first nor by anyone between them.
   */
  lemma SplitBrainExactlyWhen(roster: seq<Entry>, epoch: nat, m: nat, n: nat, oracleM: string -> Probe, oracleN: string -> Probe)
    requires NoRepeats(Order(roster)) && m < n < |Order(roster)|
    ensures var order := Order(roster);
            var first, second := Config(order[m], epoch), Config(order[n], epoch);
            Outcome(first, roster, oracleM).Promote? && Outcome(second, roster, oracleN).Promote?
            <==> && Verified(roster, order[m]) && Verified(roster, order[n])
                 && (forall k | 0 <= k < m :: EndpointOf(roster, order[k]).None? || oracleM(order[k]).Unreachable?)
                 && (forall k | 0 <= k < n :: EndpointOf(roster, order[k]).None? || oracleN(order[k]).Unreachable?)
  {
    var order := Order(roster);
    var first, second := Config(order[m], epoch), Config(order[n], epoch);
    PromotesExactlyWhen(first, roster, oracleM);
    PromotesExactlyWhen(second, roster, oracleN);
    TurnByPlace(first, roster, order, oracleM, m);
    TurnByPlace(second, roster, order, oracleN, n);
  }

  // ----- the order has no repeats -----

  lemma {:induction false} OtherThanKeeps(order: seq<string>, id: Option<string>)
    requires NoRepeats(order)
    ensures NoRepeats(OtherThan(order, id))
    ensures forall x :: x in OtherThan(order, id) <==> x in order && Some(x) != id
  {
    if order != [] {
      forall i, j | 0 <= i < j < |order[1..]| ensures order[1..][i] != order[1..][j] {
        assert order[i + 1] != order[j + 1];
      }
      OtherThanKeeps(order[1..], id);
      var rest := OtherThan(order[1..], id);
      assert order == [order[0]] + order[1..];
      forall j | 0 <= j < |rest| ensures rest[j] != order[0] {
        assert rest[j] in order[1..];
      }
    }
  }

  lemma OrderHasNoRepeats(roster: seq<Entry>)
    requires DistinctPeers(roster)
    ensures NoRepeats(Order(roster))
    ensures forall id | id in Order(roster) :: exists m | 0 <= m < |roster| :: roster[m].peerId == id && !roster[m].isHost
  {
    var r := Signaling.Candidates(roster);
    var before := Succession.Before;
    Succession.RankedIsStrict(r);
    var ranked := Succession.Ranked(r);
    forall i, j | 0 <= i < j < |ranked| ensures ranked[i].peerId != ranked[j].peerId {
      assert ranked[i] in ranked && ranked[j] in ranked;
      var m :| 0 <= m < |r| && r[m] == ranked[i];
      var n :| 0 <= n < |r| && r[n] == ranked[j];
      assert before(ranked[i], ranked[j]);
      Succession.CompareIsStrictTotalOrder(ranked[i], ranked[j], ranked[j]);
      assert roster[m].peerId != roster[n].peerId;
    }
    var order := Succession.SuccessionOrder(r);
    assert NoRepeats(order);
    OtherThanKeeps(order, HostPeerId(roster));
    forall id | id in Order(roster) ensures exists m | 0 <= m < |roster| :: roster[m].peerId == id && !roster[m].isHost {
      var i :| 0 <= i < |order| && order[i] == id;
      assert ranked[i] in ranked;
      var m :| 0 <= m < |r| && r[m] == ranked[i];
      assert roster[m].peerId == id && !roster[m].isHost;
    }
  }

  // ----- who is in the order, and where -----

  ghost predicate FirstHostAt(roster: seq<Entry>, m: nat)
    requires m < |roster|
  {
    roster[m].isHost && forall k | 0 <= k < m :: !roster[k].isHost
  }

  /** The first host of the roster goes by this id. */
  ghost predicate FirstHost(roster: seq<Entry>, id: string) {
    exists m | 0 <= m < |roster| :: FirstHostAt(roster, m) && roster[m].peerId == id
  }

  lemma {:induction false} HostPeerIdIs(roster: seq<Entry>, id: string)
    ensures HostPeerId(roster) == Some(id) <==> FirstHost(roster, id)
  {
    if roster != [] {
      var rest := roster[1..];
      HostPeerIdIs(rest, id);
      if roster[0].isHost {
        assert FirstHostAt(roster, 0);
        assert forall m | 0 <= m < |roster| && FirstHostAt(roster, m) :: m == 0;
      } else {
        if m :| 0 <= m < |rest| && FirstHostAt(rest, m) && rest[m].peerId == id {
          assert FirstHostAt(roster, m + 1) && roster[m + 1].peerId == id;
        }
        if m :| 0 <= m < |roster| && FirstHostAt(roster, m) && roster[m].peerId == id {
          assert m > 0 && FirstHostAt(rest, m - 1) && rest[m - 1].peerId == id;
        }
      }
    }
  }

  ghost predicate Names(e: Entry, id: string) { e.peerId == id && !e.isHost }

  lemma OtherThanIn(order: seq<string>, id: Option<string>)
    ensures forall x :: x in OtherThan(order, id) <==> x in order && Some(x) != id
  {
    if order != [] {
      OtherThanIn(order[1..], id);
      assert order == [order[0]] + order[1..];
    }
  }

  /** For any roster: the order lists the ids of its non-host entries, except the one its first host goes by. */
  lemma OrderLists(roster: seq<Entry>, id: string)
    ensures id in Order(roster) <==>
              (exists e :: e in roster && Names(e, id)) && !FirstHost(roster, id)
  {
    HostPeerIdIs(roster, id);
    var r := Signaling.Candidates(roster);
    OtherThanIn(Succession.SuccessionOrder(r), HostPeerId(roster));
    Succession.RankedIn(r);
    var ranked := Succession.Ranked(r);
    if i :| 0 <= i < |ranked| && ranked[i].peerId == id {
      assert ranked[i] in ranked;
      var m :| 0 <= m < |r| && r[m] == ranked[i];
      assert roster[m] in roster && Names(roster[m], id);
    }
    if e :| e in roster && Names(e, id) {
      var m :| 0 <= m < |roster| && roster[m] == e;
      assert r[m] in ranked;
      var i :| 0 <= i < |ranked| && ranked[i] == r[m];
      assert Succession.SuccessionOrder(r)[i] == id;
    }
  }

  /** The places of a roster of distinct peers are those of its non-host entries, each before all that follow it. */
  ghost predicate PlacedAs(roster: seq<Entry>, e: Entry, i: nat) {
    e in roster && i < |Order(roster)| && Names(e, Order(roster)[i])
  }

  lemma OrderIsSuccession(roster: seq<Entry>)
    requires DistinctPeers(roster)
    ensures Order(roster) == Succession.SuccessionOrder(Signaling.Candidates(roster))
  {
    var r := Signaling.Candidates(roster);
    var order := Succession.SuccessionOrder(r);
    Succession.RankedIn(r);
    var ranked := Succession.Ranked(r);
    forall i | 0 <= i < |order| ensures Some(order[i]) != HostPeerId(roster) {
      assert ranked[i] in ranked;
      var m :| 0 <= m < |r| && r[m] == ranked[i];
      assert roster[m].peerId == order[i] && !roster[m].isHost;
      HostPeerIdIs(roster, order[i]);
    }
    OtherThanNone(order, HostPeerId(roster));
  }

  lemma {:induction false} OtherThanNone(order: seq<string>, id: Option<string>)
    requires forall i | 0 <= i < |order| :: Some(order[i]) != id
    ensures OtherThan(order, id) == order
  {
    if order != [] { OtherThanNone(order[1..], id); }
  }

  lemma OrderFollowsPrecedence(roster: seq<Entry>, a: Entry, i: nat, b: Entry, j: nat)
    requires DistinctPeers(roster) && PlacedAs(roster, a, i) && PlacedAs(roster, b, j)
    ensures i < j <==> Succession.Before(Signaling.Candidate(a), Signaling.Candidate(b))
  {
    OrderIsSuccession(roster);
    var r := Signaling.Candidates(roster);
    Succession.RankedIsStrict(r);
    var ranked, before := Succession.Ranked(r), Succession.Before;
    PlaceIs(roster, a, i);
    PlaceIs(roster, b, j);
    if i < j { assert before(ranked[i], ranked[j]); }
    if j < i { assert before(ranked[j], ranked[i]); }
    Succession.CompareIsStrictTotalOrder(ranked[i], ranked[j], ranked[j]);
  }

  lemma PlaceIs(roster: seq<Entry>, a: Entry, i: nat)
    requires DistinctPeers(roster) && PlacedAs(roster, a, i)
    requires Order(roster) == Succession.SuccessionOrder(Signaling.Candidates(roster))
    ensures Succession.Ranked(Signaling.Candidates(roster))[i] == Signaling.Candidate(a)
  {
    var r := Signaling.Candidates(roster);
    Succession.RankedIn(r);
    var c := Succession.Ranked(r)[i];
    assert c in Succession.Ranked(r);
    var m :| 0 <= m < |r| && r[m] == c;
    var n :| 0 <= n < |roster| && roster[n] == a;
    assert roster[m].peerId == roster[n].peerId;
  }

  // ----- the group -----

  /** A host is gone, everyone left shares a roster, and probes tell the truth about who is left. */
  ghost predicate Sound(roster: seq<Entry>, epoch: nat, live: set<string>, oracles: string -> string -> Probe) {
    && DistinctPeers(roster) && Signaling.EndpointsMatch(roster)
    && (forall p, q | p in live :: oracles(p)(q).Status? <==> q in live)
    && (forall p, q | p in live && q in live :: !oracles(p)(q).hostAlive && epoch <= oracles(p)(q).epoch <= epoch + 1)
  }

  lemma EntryOf(roster: seq<Entry>, e: Entry)
    requires DistinctPeers(roster) && e in roster
    ensures Get(roster, e.peerId) == Some(e)
  {
    var n :| 0 <= n < |roster| && roster[n] == e;
    var g := Get(roster, e.peerId).value;
    var m :| 0 <= m < |roster| && roster[m] == g;
  }

  /** Each place of the order belongs to one non-host entry, whose endpoint and verification the loop reads. */
  lemma PlaceHasEntry(roster: seq<Entry>, i: nat) returns (e: Entry)
    requires DistinctPeers(roster) && Signaling.EndpointsMatch(roster) && i < |Order(roster)|
    ensures PlacedAs(roster, e, i) && Verified(roster, Order(roster)[i]) == e.inboundVerified
    ensures EndpointOf(roster, Order(roster)[i]) == e.inboundEndpoint && (e.inboundEndpoint.Some? <==> e.inboundVerified)
  {
    var id := Order(roster)[i];
    OrderLists(roster, id);
    e :| e in roster && Names(e, id);
    EntryOf(roster, e);
    var n :| 0 <= n < |roster| && roster[n] == e;
  }

  /** A peer that is left and could be reached as host. */
  predicate Able(e: Entry, live: set<string>) { !e.isHost && e.inboundVerified && e.peerId in live }

  /** Able, and ahead of every other able entry. */
  ghost predicate Heir(roster: seq<Entry>, live: set<string>, e: Entry) {
    && e in roster && Able(e, live)
    && forall f | f in roster && Able(f, live) && f != e :: Succession.Before(Signaling.Candidate(e), Signaling.Candidate(f))
  }

  lemma HeirPlace(roster: seq<Entry>, e: Entry) returns (w: nat)
    requires DistinctPeers(roster) && e in roster && !e.isHost
    ensures PlacedAs(roster, e, w)
  {
    var id := e.peerId;
    assert Names(e, id);
    var n :| 0 <= n < |roster| && roster[n] == e;
    assert forall m | 0 <= m < |roster| && roster[m].isHost :: m != n && roster[m].peerId != id;
    OrderLists(roster, id);
    w :| 0 <= w < |Order(roster)| && Order(roster)[w] == id;
  }

  /**
   * No split brain: the able peer ahead of all other able ones promotes itself to the next epoch, and every other live
   * peer goes to it, at the endpoint of its entry, expecting exactly that epoch.
   */
  lemma OnePromotes(roster: seq<Entry>, epoch: nat, live: set<string>, oracles: string -> string -> Probe, e: Entry, p: string)
    requires Sound(roster, epoch, live, oracles) && p in live && Heir(roster, live, e)
    ensures e.inboundEndpoint.Some?
    ensures Outcome(Config(p, epoch), roster, oracles(p))
            == if p == e.peerId then Promote(epoch + 1) else ConnectHeir(e.peerId, e.inboundEndpoint.value, epoch + 1)
  {
    hide Order, Succession.Before, Get;
    var order, cfg := Order(roster), Config(p, epoch);
    var w := HeirPlace(roster, e);
    EntryOf(roster, e);
    var n :| 0 <= n < |roster| && roster[n] == e;
    forall k | 0 <= k < w ensures !StopsAt(cfg, roster, order, oracles(p), k) {
      var f := PlaceHasEntry(roster, k);
      OrderFollowsPrecedence(roster, e, w, f, k);
      if f == e { OrderFollowsPrecedence(roster, f, k, e, w); Succession.CompareIsStrictTotalOrder(Signaling.Candidate(e), Signaling.Candidate(e), Signaling.Candidate(e)); }
      assert !Able(f, live);
    }
    assert StopsAt(cfg, roster, order, oracles(p), w);
    FirstStopDecides(cfg, roster, order, oracles(p), 0, w);
  }

  /** If any peer is able, one is ahead of the rest. */
  lemma {:induction false} SomeHeir(roster: seq<Entry>, live: set<string>, able: Entry, from: nat) returns (e: Entry)
    requires DistinctPeers(roster) && able in roster && Able(able, live) && from <= |Order(roster)|
    requires forall k, f | 0 <= k < from && PlacedAs(roster, f, k) :: !Able(f, live)
    ensures Heir(roster, live, e)
    decreases |Order(roster)| - from
  {
    hide Order, Succession.Before;
    var w := HeirPlace(roster, able);
    assert w >= from;
    var id := Order(roster)[from];
    OrderLists(roster, id);
    e :| e in roster && Names(e, id);
    assert PlacedAs(roster, e, from);
    if Able(e, live) {
      forall f | f in roster && Able(f, live) && f != e ensures Succession.Before(Signaling.Candidate(e), Signaling.Candidate(f)) {
        var j := HeirPlace(roster, f);
        assert j >= from;
        if j == from { SameEntry(roster, e, f); }
        OrderFollowsPrecedence(roster, e, from, f, j);
      }
    } else {
      forall f | PlacedAs(roster, f, from) ensures f == e { SameEntry(roster, e, f); }
      e := SomeHeir(roster, live, able, from + 1);
    }
  }

  lemma SameEntry(roster: seq<Entry>, e: Entry, f: Entry)
    requires DistinctPeers(roster) && e in roster && f in roster && e.peerId == f.peerId
    ensures e == f
  {
    EntryOf(roster, e);
    EntryOf(roster, f);
  }

  /** Everyone declares the room dead exactly when no peer that is left is able. */
  lemma NobodyPromotes(roster: seq<Entry>, epoch: nat, live: set<string>, oracles: string -> string -> Probe, p: string)
    requires Sound(roster, epoch, live, oracles) && p in live
    ensures Outcome(Config(p, epoch), roster, oracles(p)) == RoomDead <==> forall e | e in roster :: !Able(e, live)
  {
    hide Order, Outcome, Succession.Before;
    if able :| able in roster && Able(able, live) {
      var e := SomeHeir(roster, live, able, 0);
      OnePromotes(roster, epoch, live, oracles, e, p);
    } else {
      NoneStops(roster, epoch, live, oracles, p);
    }
  }

  lemma NoneStops(roster: seq<Entry>, epoch: nat, live: set<string>, oracles: string -> string -> Probe, p: string)
    requires Sound(roster, epoch, live, oracles) && p in live && forall e | e in roster :: !Able(e, live)
    ensures Outcome(Config(p, epoch), roster, oracles(p)) == RoomDead
  {
    hide Order;
    var order, cfg := Order(roster), Config(p, epoch);
    forall k | 0 <= k < |order| ensures !StopsAt(cfg, roster, order, oracles(p), k) {
      var f := PlaceHasEntry(roster, k);
    }
    FirstStopDecides(cfg, roster, order, oracles(p), 0, |order|);
  }

  /** No two live peers promote. */
  lemma AtMostOnePromotes(roster: seq<Entry>, epoch: nat, live: set<string>, oracles: string -> string -> Probe, p: string, q: string)
    requires Sound(roster, epoch, live, oracles) && p in live && q in live
    requires Outcome(Config(p, epoch), roster, oracles(p)).Promote? && Outcome(Config(q, epoch), roster, oracles(q)).Promote?
    ensures p == q
  {
    hide Order, Outcome, Succession.Before;
    NobodyPromotes(roster, epoch, live, oracles, p);
    var able :| able in roster && Able(able, live);
    var e := SomeHeir(roster, live, able, 0);
    OnePromotes(roster, epoch, live, oracles, e, p);
    OnePromotes(roster, epoch, live, oracles, e, q);
  }

  /** The rosters the signaling host hands out meet what the group theorems ask of a roster. */
  lemma SharedRosterIsFit(h: Signaling.Host, fold: string -> string)
    requires Signaling.RosterInv(h, fold)
    ensures var roster := Snapshot(h.entries);
            DistinctPeers(roster) && Signaling.EndpointsMatch(roster) && NoRepeats(Order(roster))
  {
    SnapshotOfOrdered(h.entries);
    OrderHasNoRepeats(h.entries);
  }
}
