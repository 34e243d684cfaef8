/** The host's participant list (src/main/signaling/roster.ts): the rules on values, and the mutable table. */
module Rosters {
  import opened Bytes
  import opened Sorting

  datatype Endpoint = Endpoint(address: string, port: nat)

  datatype Entry = Entry(
    peerId: string,
    nickname: string,
    joinSeq: nat,
    isHost: bool,
    inboundVerified: bool,
    inboundEndpoint: Option<Endpoint>,
    publishing: Option<string>
  )

  predicate Earlier(a: Entry, b: Entry) { a.joinSeq < b.joinSeq }

  function PeerIds(s: seq<Entry>): set<string> { set e | e in s :: e.peerId }

  predicate Has(s: seq<Entry>, id: string) { id in PeerIds(s) }

  /** The last entry of `s` for this id, as a map built from the list would hold. */
  function Get(s: seq<Entry>, id: string): (r: Option<Entry>)
    ensures r.Some? ==> r.value in s && r.value.peerId == id
    ensures r.None? <==> !Has(s, id)
  {
    if s == [] then None
    else if s[|s| - 1].peerId == id then Some(s[|s| - 1])
    else
      assert s == s[..|s| - 1] + [s[|s| - 1]];
      Get(s[..|s| - 1], id)
  }

  function Kept(s: seq<Entry>, removed: seq<string>): seq<Entry> {
    if s == [] then []
    else if s[|s| - 1].peerId in removed then Kept(s[..|s| - 1], removed)
    else Kept(s[..|s| - 1], removed) + [s[|s| - 1]]
  }

  function Newer(e: Entry, changed: seq<Entry>): Entry {
    var r := Get(changed, e.peerId);
    if r.Some? then r.value else e
  }

  function Replaced(s: seq<Entry>, changed: seq<Entry>): seq<Entry> {
    seq(|s|, i requires 0 <= i < |s| => Newer(s[i], changed))
  }

  /** Insertion-ordered map semantics: an existing id keeps its place, a new one goes last. */
  function Put(s: seq<Entry>, e: Entry): seq<Entry> {
    if Has(s, e.peerId) then Replaced(s, [e]) else s + [e]
  }

  function Snapshot(s: seq<Entry>): seq<Entry> { Sort(s, Earlier) }

  ghost predicate InJoinOrder(s: seq<Entry>) {
    forall i, j | 0 <= i < j < |s| :: s[i].joinSeq < s[j].joinSeq
  }

  ghost predicate DistinctPeers(s: seq<Entry>) {
    forall i, j | 0 <= i < j < |s| :: s[i].peerId != s[j].peerId
  }

  ghost predicate DistinctNames(s: seq<Entry>, fold: string -> string) {
    forall i, j | 0 <= i < j < |s| :: fold(s[i].nickname) != fold(s[j].nickname)
  }

  /** Exactly one entry is a host, and it carries this id. */
  ghost predicate OneHost(s: seq<Entry>, host: string) {
    exists i | 0 <= i < |s| :: HostAt(s, host, i)
  }

  ghost predicate HostAt(s: seq<Entry>, host: string, i: nat)
    requires i < |s|
  {
    s[i].peerId == host && s[i].isHost && forall j | 0 <= j < |s| && s[j].isHost :: j == i
  }

  /** `#entries` and `#nextJoinSeq`; `fold` stands for the nickname's lower-case form. */
  class Roster {
    var entries: seq<Entry>
    var nextJoinSeq: nat
    const fold: string -> string

    constructor (hostEntry: Entry, fold: string -> string)
      ensures entries == [hostEntry.(joinSeq := 0)] && nextJoinSeq == 1 && this.fold == fold
    {
      entries := [hostEntry.(joinSeq := 0)];
      nextJoinSeq := 1;
      this.fold := fold;
    }

    method AllocateJoinSeq() returns (n: nat)
      modifies this`nextJoinSeq
      ensures n == old(nextJoinSeq) && nextJoinSeq == n + 1
    {
      n := nextJoinSeq;
      nextJoinSeq := nextJoinSeq + 1;
    }

    method HasNickname(nickname: string) returns (taken: bool)
      ensures taken <==> exists e | e in entries :: fold(e.nickname) == fold(nickname)
    {
      for i := 0 to |entries|
        invariant forall e | e in entries[..i] :: fold(e.nickname) != fold(nickname)
      {
        if fold(entries[i].nickname) == fold(nickname) { return true; }
      }
      assert entries[..|entries|] == entries;
      return false;
    }

    method Add(entry: Entry)
      modifies this`entries
      ensures entries == Put(old(entries), entry)
    {
      entries := Put(entries, entry);
    }

    method Remove(peerId: string) returns (gone: Option<Entry>)
      modifies this`entries
      ensures gone == Get(old(entries), peerId) && entries == Kept(old(entries), [peerId])
    {
      gone := Get(entries, peerId);
      entries := Kept(entries, [peerId]);
    }

    method UpdateInbound(peerId: string, verified: bool, endpoint: Option<Endpoint>) returns (next: Option<Entry>)
      modifies this`entries
      ensures next.Some? <==> Has(old(entries), peerId)
      ensures next.Some? ==>
                var now := Get(old(entries), peerId).value.(inboundVerified := verified, inboundEndpoint := endpoint);
                next.value == now && entries == Put(old(entries), now)
      ensures next.None? ==> entries == old(entries)
    {
      var current := Get(entries, peerId);
      if current.None? { return None; }
      var now := current.value.(inboundVerified := verified, inboundEndpoint := endpoint);
      entries := Put(entries, now);
      return Some(now);
    }
  }

  // ----- what the table's operations keep -----

  lemma {:induction false} KeptIn(s: seq<Entry>, removed: seq<string>)
    ensures forall e :: e in Kept(s, removed) <==> e in s && e.peerId !in removed
    ensures |Kept(s, removed)| <= |s|
  {
    if s != [] {
      KeptIn(s[..|s| - 1], removed);
      assert s == s[..|s| - 1] + [s[|s| - 1]];
    }
  }

  /** Anything true of every two places of a list is true of every two places of what a filter keeps. */
  lemma {:induction false} KeptPairs(s: seq<Entry>, removed: seq<string>, ok: (Entry, Entry) -> bool)
    requires forall i, j | 0 <= i < j < |s| :: ok(s[i], s[j])
    ensures var r := Kept(s, removed); forall i, j | 0 <= i < j < |r| :: ok(r[i], r[j])
  {
    if s != [] {
      var init, last := s[..|s| - 1], s[|s| - 1];
      KeptPairs(init, removed, ok);
      KeptIn(init, removed);
      var r := Kept(init, removed);
      forall i | 0 <= i < |r| ensures ok(r[i], last) {
        assert r[i] in init;
        var k :| 0 <= k < |init| && init[k] == r[i];
        assert ok(s[k], s[|s| - 1]);
      }
    }
  }

  lemma KeepingNone(s: seq<Entry>)
    ensures Kept(s, []) == s
  {
    if s != [] {
      KeepingNone(s[..|s| - 1]);
      assert s == s[..|s| - 1] + [s[|s| - 1]];
    }
  }

  lemma ReplacingNone(s: seq<Entry>)
    ensures Replaced(s, []) == s
  {
    assert forall i | 0 <= i < |s| :: Newer(s[i], []) == s[i];
  }

  /** In join order, a snapshot is the table itself. */
  lemma SnapshotOfOrdered(s: seq<Entry>)
    requires InJoinOrder(s)
    ensures Snapshot(s) == s
  {
    SortSorted(s, Earlier);
  }

  /** A snapshot lists the entries of a table without repeated sequence numbers, each once, in join order. */
  lemma SnapshotSorts(s: seq<Entry>)
    requires forall i, j | 0 <= i < j < |s| :: s[i].joinSeq != s[j].joinSeq
    ensures InJoinOrder(Snapshot(s)) && multiset(Snapshot(s)) == multiset(s)
  {
    SortStrict(s, Earlier);
    SortIn(s, Earlier);
    var r := Snapshot(s);
    forall i, j | 0 <= i < j < |r| ensures r[i].joinSeq < r[j].joinSeq { assert Earlier(r[i], r[j]); }
  }

  lemma HostStays(s: seq<Entry>, removed: string, host: string)
    requires OneHost(s, host) && removed != host && DistinctPeers(s)
    ensures OneHost(Kept(s, [removed]), host)
  {
    var k :| 0 <= k < |s| && HostAt(s, host, k);
    var r := Kept(s, [removed]);
    KeptIn(s, [removed]);
    KeptPairs(s, [removed], (a: Entry, b: Entry) => a.peerId != b.peerId);
    assert s[k] in r;
    var i :| 0 <= i < |r| && r[i] == s[k];
    forall j | 0 <= j < |r| && r[j].isHost ensures j == i {
      assert r[j] in s;
      var m :| 0 <= m < |s| && s[m] == r[j];
      assert m == k;
      assert r[j].peerId == r[i].peerId;
    }
    assert HostAt(r, host, i);
  }
}
