/**
 * Whom `transferHost` names, and when naming twice names the same peer
 * (src/main/signaling/server.ts:168-203 over src/main/election/succession.ts).
 */
module HostTransfers {
  import opened Bytes
  import opened Rosters
  import opened Signaling
  import Succession

  /** Entry k comes before every other entry that may become host. */
  ghost predicate LeadsAt(s: seq<Entry>, k: nat) {
    && k < |s| && !s[k].isHost
    && forall i | 0 <= i < |s| && i != k && !s[i].isHost :: Precedes(s[k], s[i])
  }

  predicate Precedes(a: Entry, b: Entry) { Succession.Before(Candidate(a), Candidate(b)) }

  lemma CandidatesAreDistinct(s: seq<Entry>)
    requires DistinctPeers(s)
    ensures Succession.DistinctIds(Candidates(s))
    ensures |Candidates(s)| == |s| && forall i | 0 <= i < |s| :: Candidates(s)[i] == Candidate(s[i])
  {
  }

  lemma HeirByIndex(r: seq<Succession.Candidate>, k: nat)
    requires Succession.DistinctIds(r) && k < |r| && Succession.IsEligible(r[k])
    ensures Succession.DesignatedHeir(r) == Some(r[k].peerId)
            <==> forall i | 0 <= i < |r| && i != k && Succession.IsEligible(r[i]) :: Succession.Before(r[k], r[i])
  {
    assert r[k] in r;
    Succession.HeirIsLeast(r, r[k]);
    hide Succession.DesignatedHeir, Succession.Before;
    forall i | 0 <= i < |r| && i != k ensures r[i] in r && r[i] != r[k] { }
  }

  lemma HeirLeads(s: seq<Entry>, k: nat)
    requires InJoinOrder(s) && DistinctPeers(s) && k < |s| && !s[k].isHost
    ensures Successor(s) == Some(s[k].peerId) <==> LeadsAt(s, k)
  {
    SuccessorOfOrdered(s);
    CandidatesAreDistinct(s);
    HeirByIndex(Candidates(s), k);
    hide Successor, Succession.DesignatedHeir, Succession.Before, Candidates, Snapshot, InJoinOrder;
    forall i | 0 <= i < |s|
      ensures Succession.IsEligible(Candidates(s)[i]) == !s[i].isHost
      ensures Precedes(s[k], s[i]) == Succession.Before(Candidates(s)[k], Candidates(s)[i])
    { }
  }

  lemma SuccessorOfOrdered(s: seq<Entry>)
    requires InJoinOrder(s)
    ensures Successor(s) == Succession.DesignatedHeir(Candidates(s))
  {
    SnapshotOfOrdered(s);
  }

  lemma HeirIndex(s: seq<Entry>) returns (k: nat)
    requires InJoinOrder(s) && DistinctPeers(s) && Successor(s).Some?
    ensures LeadsAt(s, k) && s[k].peerId == Successor(s).value
  {
    SuccessorOfOrdered(s);
    CandidatesAreDistinct(s);
    var r := Candidates(s);
    Succession.RankedIsStrict(r);
    var c := Succession.Ranked(r)[0];
    assert c in Succession.Ranked(r);
    k :| 0 <= k < |r| && r[k] == c;
    HeirLeads(s, k);
  }

  /** A newcomer is unverified and last in line, so it never overtakes an heir. */
  lemma NewcomerNeverLeads(s: seq<Entry>, id: string, nickname: string, joinSeq: nat)
    requires var r := s + [NewcomerEntry(id, nickname, joinSeq)];
             InJoinOrder(s) && DistinctPeers(s) && InJoinOrder(r) && DistinctPeers(r)
    requires Successor(s).Some?
    ensures Successor(s + [NewcomerEntry(id, nickname, joinSeq)]) == Successor(s)
  {
    var r := s + [NewcomerEntry(id, nickname, joinSeq)];
    var k := HeirIndex(s);
    assert r[k] == s[k] && r[k].joinSeq < r[|s|].joinSeq;
    forall i | 0 <= i < |r| && i != k && !r[i].isHost ensures Precedes(r[k], r[i]) {
      assert i < |s| ==> r[i] == s[i];
    }
    HeirLeads(r, k);
  }

  // ----- a settling probe -----

  /**
   * A probe that settles after the heir was named leaves the heir in place exactly when the entry it
   * rewrites does not overtake: another peer's entry must still come after the heir's, and the heir's
   * own rewritten entry must still come before every other eligible one.
   */
  ghost predicate ProbeIsHarmless(s: seq<Entry>, heir: string, id: string, reachable: bool, endpoint: Endpoint)
    requires Has(s, id) && Has(s, heir)
  {
    var now := Probed(Get(s, id).value, reachable, endpoint);
    if id == heir then
      forall i | 0 <= i < |s| && !s[i].isHost && s[i].peerId != heir :: Precedes(now, s[i])
    else
      Precedes(Get(s, heir).value, now)
  }

  lemma TheEntry(s: seq<Entry>, i: nat)
    requires DistinctPeers(s) && i < |s|
    ensures Has(s, s[i].peerId) && Get(s, s[i].peerId) == Some(s[i])
  {
    assert s[i] in s;
    var g := Get(s, s[i].peerId).value;
    var m :| 0 <= m < |s| && s[m] == g;
    assert m == i;
  }

  lemma ProbeKeepsHeir(s: seq<Entry>, heir: string, id: string, reachable: bool, endpoint: Endpoint)
    requires InJoinOrder(s) && DistinctPeers(s) && Successor(s) == Some(heir)
    requires Has(s, id) && !Get(s, id).value.isHost
    ensures Has(s, heir)
    ensures Successor(Put(s, Probed(Get(s, id).value, reachable, endpoint))) == Some(heir)
            <==> ProbeIsHarmless(s, heir, id, reachable, endpoint)
  {
    hide Successor, ProbeIsHarmless, Precedes, Put, Replaced, Probed;
    ProbedSamePlaces(s, id, reachable, endpoint);
    var was := Get(s, id).value;
    var s' := Put(s, Probed(was, reachable, endpoint));
    ProbedPlaces(s, id, reachable, endpoint);
    var k := HeirIndex(s);
    TheEntry(s, k);
    var m :| 0 <= m < |s| && s[m] == was;
    ProbedLeader(s, s', k, m, reachable, endpoint);
    HeirLeads(s', k);
  }

  lemma ProbedLeader(s: seq<Entry>, s': seq<Entry>, k: nat, m: nat, reachable: bool, endpoint: Endpoint)
    requires DistinctPeers(s) && LeadsAt(s, k) && m < |s| && !s[m].isHost && |s'| == |s|
    requires forall i | 0 <= i < |s| :: s'[i] == if s[i].peerId == s[m].peerId then Probed(s[i], reachable, endpoint) else s[i]
    ensures Has(s, s[k].peerId) && Has(s, s[m].peerId)
    ensures LeadsAt(s', k) <==> ProbeIsHarmless(s, s[k].peerId, s[m].peerId, reachable, endpoint)
  {
    TheEntry(s, k);
    TheEntry(s, m);
    var now := Probed(s[m], reachable, endpoint);
    assert forall i | 0 <= i < |s| :: s'[i] == if i == m then now else s[i];
    if m == k {
      if LeadsAt(s', k) {
        forall i | 0 <= i < |s| && !s[i].isHost && s[i].peerId != s[k].peerId ensures Precedes(now, s[i]) {
          assert Precedes(s'[k], s'[i]);
        }
      }
    } else if Precedes(s[k], now) {
      forall i | 0 <= i < |s'| && i != k && !s'[i].isHost ensures Precedes(s'[k], s'[i]) {
        assert i != m ==> Precedes(s[k], s[i]);
      }
    } else {
      assert !Precedes(s'[k], s'[m]);
    }
  }

  // ----- repeated transfers -----

  /** While the host is closing, every step but a settling probe leaves the named heir as it was. */
  lemma ClosingKeepsSuccessor(s: System, a: Action, fold: string -> string)
    requires Inv(s, fold) && Enabled(s, a) && s.host.closing && Successor(s.host.entries).Some? && !a.ProbeSettles?
    ensures var s' := Next(s, a, fold);
            s'.host.closing && Successor(s'.host.entries) == Successor(s.host.entries) && s'.host.epoch == s.host.epoch
  {
    if a.Admit? && Refusal(s.host, a.nickname, fold).None? {
      assert !Has(s.host.entries, a.peerId);
      AdmittedTable(s.host, a.peerId, a.nickname, fold);
      NewcomerNeverLeads(s.host.entries, a.peerId, a.nickname, s.host.nextJoinSeq);
    }
  }

  /** A settling probe that finds its peer linked does not overtake the heir; any other step is harmless. */
  ghost predicate Harmless(s: System, a: Action) {
    a.ProbeSettles? && a.peerId in s.host.links && Has(s.host.entries, a.peerId) ==>
      var heir := Successor(s.host.entries);
      heir.Some? && Has(s.host.entries, heir.value)
      && ProbeIsHarmless(s.host.entries, heir.value, a.peerId, a.reachable, a.endpoint)
  }

  ghost predicate AllHarmless(from: System, run: seq<Action>, fold: string -> string)
    decreases |run|
  {
    run == [] || (Harmless(from, run[0]) && AllHarmless(Next(from, run[0], fold), run[1..], fold))
  }

  /** At every point of the run the host would name this same peer. */
  ghost predicate AlwaysNames(from: System, run: seq<Action>, fold: string -> string, heir: string)
    decreases |run|
  {
    Successor(from.host.entries) == Some(heir) && (run == [] || AlwaysNames(Next(from, run[0], fold), run[1..], fold, heir))
  }

  lemma LinkedIsNoHost(h: Host, id: string, fold: string -> string)
    requires RosterInv(h, fold) && id in h.links
    ensures Has(h.entries, id) && !Get(h.entries, id).value.isHost
  {
    var e := Get(h.entries, id).value;
    var m :| 0 <= m < |h.entries| && h.entries[m] == e;
    var k :| 0 <= k < |h.entries| && HostAt(h.entries, h.hostId, k);
  }

  /** One step of a closing host keeps the heir exactly when it is harmless. */
  lemma StepKeepsHeirExactlyWhen(s: System, a: Action, fold: string -> string)
    requires Inv(s, fold) && Enabled(s, a) && s.host.closing && Successor(s.host.entries).Some?
    ensures Next(s, a, fold).host.closing && Next(s, a, fold).host.epoch == s.host.epoch
    ensures Successor(Next(s, a, fold).host.entries) == Successor(s.host.entries) <==> Harmless(s, a)
  {
    hide TableInv, AllWillAgree, Successor, ProbeIsHarmless;
    if !a.ProbeSettles? {
      ClosingKeepsSuccessor(s, a, fold);
    } else if a.peerId in s.host.links && Has(s.host.entries, a.peerId) {
      LinkedIsNoHost(s.host, a.peerId, fold);
      TableFacts(s.host, fold);
      ProbeKeepsHeir(s.host.entries, Successor(s.host.entries).value, a.peerId, a.reachable, a.endpoint);
    }
  }

  lemma TableFacts(h: Host, fold: string -> string)
    requires RosterInv(h, fold)
    ensures InJoinOrder(h.entries) && DistinctPeers(h.entries)
  {
  }

  /**
   * Repeated transfers name the same peer, at every point of a closing run, if and only if every inbound probe
   * that settles on it is harmless where it settles.
   */
  lemma {:induction false} RepeatedTransfersAgree(s: System, run: seq<Action>, from: System, fold: string -> string)
    requires Inv(from, fold) && from.host.closing && Successor(from.host.entries).Some? && Reachable(s, fold, run, from)
    ensures AlwaysNames(from, run, fold, Successor(from.host.entries).value) <==> AllHarmless(from, run, fold)
    decreases |run|
  {
    hide Inv, Next, Successor, Harmless, Enabled;
    if run != [] {
      var mid := Next(from, run[0], fold);
      StepKeepsHeirExactlyWhen(from, run[0], fold);
      NextKeeps(from, run[0], fold);
      if Successor(mid.host.entries) == Successor(from.host.entries) {
        RepeatedTransfersAgree(s, run[1..], mid, fold);
      } else {
        NamesNow(mid, run[1..], fold, Successor(from.host.entries).value);
      }
    }
  }

  lemma NamesNow(from: System, run: seq<Action>, fold: string -> string, heir: string)
    ensures AlwaysNames(from, run, fold, heir) ==> Successor(from.host.entries) == Some(heir)
  {
  }

  // ----- a run on which the heir moves -----

  function Same(s: string): string { s }

  const MOVING: seq<Action> := [
    Action.Admit("a", "A", 0), Action.Admit("b", "B", 0), Transfer, ProbeSettles("b", true, Endpoint("ip", 1)), Transfer
  ]

  function NamedTwice(): System {
    var s2 := Next(Next(Opened("h", "H", 0, 8), MOVING[0], Same), MOVING[1], Same);
    Next(Next(Next(s2, MOVING[2], Same), MOVING[3], Same), MOVING[4], Same)
  }

  lemma TwoAdmitted()
    ensures var s := Next(Next(Opened("h", "H", 0, 8), MOVING[0], Same), MOVING[1], Same);
            && s.host.entries == [HostEntry("h", "H"), NewcomerEntry("a", "A", 1), NewcomerEntry("b", "B", 2)]
            && s.host.links == {"a", "b"} && s.peers.Keys == {"a", "b"} && s.host.epoch == 0
    ensures Enabled(Opened("h", "H", 0, 8), MOVING[0]) && Enabled(Next(Opened("h", "H", 0, 8), MOVING[0], Same), MOVING[1])
  {
    hide Snapshot, Successor;
    var h, a := HostEntry("h", "H"), NewcomerEntry("a", "A", 1);
    assert [h][0] == h && [h, a][0] == h && [h, a][1] == a;
    assert Has([h], "a") <==> h.peerId == "a";
    assert forall e | e in [h, a] :: e == h || e == a;
    assert !Has([h, a], "b");
    var s1 := Next(Opened("h", "H", 0, 8), MOVING[0], Same);
    assert s1.host.entries == [h] + [a] == [h, a];
    var s2 := Next(s1, MOVING[1], Same);
    assert s2.host.entries == [h, a] + [NewcomerEntry("b", "B", 2)];
  }

  lemma SentAppends(peers: Peers, to: set<string>, msg: Msg, p: string)
    requires p in peers && p in to
    ensures p in Sent(peers, to, msg) && Sent(peers, to, msg)[p].queue == peers[p].queue + [msg]
  {
  }

  lemma HeirsOfTheTable()
    ensures var s := [HostEntry("h", "H"), NewcomerEntry("a", "A", 1), NewcomerEntry("b", "B", 2)];
            && Has(s, "b") && Get(s, "b") == Some(s[2]) && Successor(s) == Some("a")
            && Successor(Put(s, Probed(s[2], true, Endpoint("ip", 1)))) == Some("b")
  {
    hide Successor;
    var s := [HostEntry("h", "H"), NewcomerEntry("a", "A", 1), NewcomerEntry("b", "B", 2)];
    TheEntry(s, 2);
    HeirLeads(s, 1);
    ProbedPlaces(s, "b", true, Endpoint("ip", 1));
    ProbedSamePlaces(s, "b", true, Endpoint("ip", 1));
    HeirLeads(Put(s, Probed(s[2], true, Endpoint("ip", 1))), 2);
  }

  /** Two transfers with a probe settling between them name two different heirs, and both names go to the same peers. */
  lemma ProbeMovesTheHeir()
    ensures var s := NamedTwice();
            && Reachable(s, Same, MOVING, Opened("h", "H", 0, 8))
            && "a" in s.host.links && "a" in s.peers
            && HostTransfer("a", 1) in s.peers["a"].queue && HostTransfer("b", 1) in s.peers["a"].queue
  {
    hide Successor, Put, Get, Probed, Has, Next, Reachable, Snapshot;
    TwoAdmitted();
    HeirsOfTheTable();
    var s2 := Next(Next(Opened("h", "H", 0, 8), MOVING[0], Same), MOVING[1], Same);
    ThreeMore(s2, s2.host.entries, Probed(s2.host.entries[2], true, Endpoint("ip", 1)));
    FiveSteps();
  }

  /** The transfer, the probe and the second transfer, given whom each would name. */
  lemma ThreeMore(s2: System, entries: seq<Entry>, e: Entry)
    requires s2.host.entries == entries && "a" in s2.host.links && "b" in s2.host.links && "a" in s2.peers && s2.host.epoch == 0
    requires Has(entries, "b") && Get(entries, "b").Some? && e == Probed(Get(entries, "b").value, true, Endpoint("ip", 1))
    requires Successor(entries) == Some("a") && Successor(Put(entries, e)) == Some("b")
    ensures var s3 := Next(s2, Transfer, Same);
            var s4 := Next(s3, ProbeSettles("b", true, Endpoint("ip", 1)), Same);
            var s5 := Next(s4, Transfer, Same);
            && "a" in s5.host.links && "a" in s5.peers
            && s5.peers["a"].queue == s2.peers["a"].queue + [HostTransfer("a", 1)] + [RosterUpdate([], [], [e])] + [HostTransfer("b", 1)]
  {
    hide Successor, Put, Get, Probed, Has;
    var s3 := Next(s2, Transfer, Same);
    assert s3.host.entries == entries && s3.host.links == s2.host.links;
    SentAppends(s2.peers, s2.host.links, HostTransfer("a", 1), "a");
    var s4 := Next(s3, ProbeSettles("b", true, Endpoint("ip", 1)), Same);
    SentAppends(s3.peers, s3.host.links, RosterUpdate([], [], [e]), "a");
    SentAppends(s4.peers, s4.host.links, HostTransfer("b", 1), "a");
  }

  lemma FiveSteps()
    requires Enabled(Opened("h", "H", 0, 8), MOVING[0]) && Enabled(Next(Opened("h", "H", 0, 8), MOVING[0], Same), MOVING[1])
    ensures Reachable(NamedTwice(), Same, MOVING, Opened("h", "H", 0, 8))
  {
    hide Next, Enabled;
    var s0 := Opened("h", "H", 0, 8);
    var s1 := Next(s0, MOVING[0], Same);
    var s2 := Next(s1, MOVING[1], Same);
    var s3 := Next(s2, MOVING[2], Same);
    var s4 := Next(s3, MOVING[3], Same);
    assert MOVING[1..][0] == MOVING[1] && MOVING[1..][1..] == MOVING[2..] && MOVING[2..][1..] == MOVING[3..] && MOVING[3..][1..] == MOVING[4..];
    assert MOVING[4..][1..] == [];
    AlwaysEnabled(s2, MOVING[2]);
    AlwaysEnabled(s3, MOVING[3]);
    AlwaysEnabled(s4, MOVING[4]);
    assert Reachable(NamedTwice(), Same, [], NamedTwice());
    assert Reachable(NamedTwice(), Same, MOVING[4..], s4);
    assert Reachable(NamedTwice(), Same, MOVING[3..], s3);
    assert Reachable(NamedTwice(), Same, MOVING[2..], s2);
    assert Reachable(NamedTwice(), Same, MOVING[1..], s1);
  }

  lemma AlwaysEnabled(s: System, a: Action)
    requires a.Transfer? || a.ProbeSettles?
    ensures Enabled(s, a)
  {
  }

  // ----- what a closing host still sends -----

  /** The steps that put something more on the connection of a linked peer. */
  predicate Sends(s: System, a: Action, fold: string -> string, p: string) {
    match a
    case Admit(_, nickname, _) => Refusal(s.host, nickname, fold).None?
    case PeerGone(id) => !s.host.closing && id != p && Has(s.host.entries, id)
    case ProbeSettles(id, _, _) => id in s.host.links && Has(s.host.entries, id)
    case Transfer => Successor(s.host.entries).Some?
    case Say(id) => id == p
    case _ => false
  }

  /**
   * A host that has named its successor means to send its peers nothing more, and departures are indeed kept
   * quiet; but a join already past its handshake and a settling probe are still announced to every linked peer.
   */
  lemma SendsExactlyWhen(s: System, a: Action, fold: string -> string, p: string)
    requires p in s.host.links && p in s.peers && Enabled(s, a) && !a.Read?
    ensures p in Next(s, a, fold).peers
    ensures Next(s, a, fold).peers[p].queue != s.peers[p].queue <==> Sends(s, a, fold, p)
    ensures s.peers[p].queue <= Next(s, a, fold).peers[p].queue
  {
    hide Refusal, Successor, Has, Snapshot, Put, Kept;
    LongerIsOther(s.peers[p].queue);
  }

  lemma LongerIsOther(q: seq<Msg>)
    ensures forall m :: q + [m] != q && q <= q + [m]
  {
    forall m ensures q + [m] != q && q <= q + [m] {
      assert |q + [m]| == |q| + 1;
    }
  }
}
