/** The deterministic succession order (src/main/election/succession.ts). */
module Succession {
  import opened Bytes
  import opened Sorting

  datatype Candidate = Candidate(peerId: string, joinSeq: int, inboundVerified: bool, isHost: bool, connected: bool)

  /** Lexicographic order of strings, unit by unit. */
  predicate StrLess(a: string, b: string) {
    b != [] && (a == [] || a[0] < b[0] || (a[0] == b[0] && StrLess(a[1..], b[1..])))
  }

  function Compare(a: Candidate, b: Candidate): int {
    if a.inboundVerified != b.inboundVerified then (if a.inboundVerified then -1 else 1)
    else if a.joinSeq != b.joinSeq then a.joinSeq - b.joinSeq
    else if StrLess(a.peerId, b.peerId) then -1
    else if StrLess(b.peerId, a.peerId) then 1
    else 0
  }

  predicate Before(a: Candidate, b: Candidate) { Compare(a, b) < 0 }

  predicate IsEligible(e: Candidate) { !e.isHost && e.connected }

  function Eligible(r: seq<Candidate>): seq<Candidate> {
    if r == [] then [] else Eligible(r[..|r| - 1]) + if IsEligible(r[|r| - 1]) then [r[|r| - 1]] else []
  }

  function Ids(s: seq<Candidate>): seq<string> {
    seq(|s|, i requires 0 <= i < |s| => s[i].peerId)
  }

  function Ranked(r: seq<Candidate>): seq<Candidate> {
    Sort(Eligible(r), Before)
  }

  function SuccessionOrder(r: seq<Candidate>): seq<string> { Ids(Ranked(r)) }

  function Head(order: seq<string>): Option<string> {
    if order == [] then None else Some(order[0])
  }

  function DesignatedHeir(r: seq<Candidate>): Option<string> { Head(SuccessionOrder(r)) }

  function FirstOutside(order: seq<string>, exhausted: set<string>): Option<string> {
    if order == [] then None else if order[0] !in exhausted then Some(order[0]) else FirstOutside(order[1..], exhausted)
  }

  function NextSuccessor(r: seq<Candidate>, exhausted: set<string>): Option<string> {
    FirstOutside(SuccessionOrder(r), exhausted)
  }

  function Without(r: seq<Candidate>, gone: set<string>): seq<Candidate> {
    if r == [] then [] else Without(r[..|r| - 1], gone) + if r[|r| - 1].peerId in gone then [] else [r[|r| - 1]]
  }

  function Outside(order: seq<string>, gone: set<string>): seq<string> {
    if order == [] then [] else (if order[0] in gone then [] else [order[0]]) + Outside(order[1..], gone)
  }

  ghost predicate DistinctIds(r: seq<Candidate>) {
    forall i, j | 0 <= i < j < |r| :: r[i].peerId != r[j].peerId
  }

  // ----- compareCandidates is a strict total order on entries with different ids -----

  lemma {:induction false} StrLessTotal(a: string, b: string)
    ensures !(StrLess(a, b) && StrLess(b, a))
    ensures a != b ==> StrLess(a, b) || StrLess(b, a)
    ensures !StrLess(a, a)
  {
    if a != [] && b != [] && a[0] == b[0] {
      StrLessTotal(a[1..], b[1..]);
      assert a == [a[0]] + a[1..] && b == [b[0]] + b[1..];
    }
    if a != [] { StrLessTotal(a[1..], a[1..]); }
  }

  lemma {:induction false} StrLessTransitive(a: string, b: string, c: string)
    requires StrLess(a, b) && StrLess(b, c)
    ensures StrLess(a, c)
  {
    if a != [] && a[0] == b[0] && b[0] == c[0] { StrLessTransitive(a[1..], b[1..], c[1..]); }
  }

  lemma CompareIsStrictTotalOrder(a: Candidate, b: Candidate, c: Candidate)
    ensures !Before(a, a)
    ensures Before(a, b) ==> !Before(b, a)
    ensures Before(a, b) && Before(b, c) ==> Before(a, c)
    ensures a.peerId != b.peerId ==> Before(a, b) || Before(b, a)
    ensures Compare(a, b) < 0 <==> Compare(b, a) > 0
  {
    StrLessTotal(a.peerId, b.peerId);
    StrLessTotal(a.peerId, a.peerId);
    if StrLess(a.peerId, b.peerId) && StrLess(b.peerId, c.peerId) { StrLessTransitive(a.peerId, b.peerId, c.peerId); }
  }

  /** Strings are ordered at the first place they differ, and a proper prefix comes first. */
  lemma {:induction false} StrLessAtFirstDifference(pre: string, a: string, b: string)
    requires a == [] || b == [] || a[0] != b[0]
    ensures StrLess(pre + a, pre + b) <==> b != [] && (a == [] || a[0] < b[0])
    decreases |pre|
  {
    if pre == [] {
      assert pre + a == a && pre + b == b;
    } else {
      assert (pre + a)[1..] == pre[1..] + a && (pre + b)[1..] == pre[1..] + b;
      StrLessAtFirstDifference(pre[1..], a, b);
    }
  }

  /** Verified peers come first, then those who joined earlier, then the smaller id. */
  lemma BeforeExactlyWhen(a: Candidate, b: Candidate)
    ensures a.inboundVerified && !b.inboundVerified ==> Before(a, b)
    ensures a.inboundVerified == b.inboundVerified && a.joinSeq < b.joinSeq ==> Before(a, b)
    ensures a.inboundVerified == b.inboundVerified && a.joinSeq == b.joinSeq ==> (Before(a, b) <==> StrLess(a.peerId, b.peerId))
  {
    StrLessTotal(a.peerId, b.peerId);
  }

  // ----- the order as a function of the roster's contents -----

  lemma {:induction false} EligibleIn(r: seq<Candidate>)
    ensures forall e :: e in Eligible(r) <==> e in r && IsEligible(e)
  {
    if r != [] {
      EligibleIn(r[..|r| - 1]);
      assert r == r[..|r| - 1] + [r[|r| - 1]];
    }
  }

  lemma {:induction false} EligibleDistinct(r: seq<Candidate>)
    requires DistinctIds(r)
    ensures DistinctIds(Eligible(r))
  {
    if r != [] {
      var init, last := r[..|r| - 1], r[|r| - 1];
      EligibleDistinct(init);
      EligibleIn(init);
      LastIsNew(r, Eligible(init));
      hide IsEligible;
    }
  }

  /** The last of a list with distinct ids shares none with entries taken from before it. */
  lemma LastIsNew(r: seq<Candidate>, s: seq<Candidate>)
    requires r != [] && DistinctIds(r) && forall e | e in s :: e in r[..|r| - 1]
    ensures forall i | 0 <= i < |s| :: s[i].peerId != r[|r| - 1].peerId
  {
    var init, last := r[..|r| - 1], r[|r| - 1];
    forall i | 0 <= i < |s| ensures s[i].peerId != last.peerId {
      assert s[i] in s;
      assert s[i] in init;
      var k :| 0 <= k < |init| && init[k] == s[i];
      assert r[k].peerId != r[|r| - 1].peerId;
    }
  }

  /** The ranking lists exactly the eligible entries, whatever their ids. */
  lemma RankedIn(r: seq<Candidate>)
    ensures forall e :: e in Ranked(r) <==> e in r && IsEligible(e)
  {
    var s, before := Eligible(r), Before;
    EligibleIn(r);
    SortIn(s, before);
    forall e ensures e in Ranked(r) <==> e in Eligible(r) {
      assert e in Ranked(r) <==> e in multiset(Ranked(r));
      assert e in Eligible(r) <==> e in multiset(Eligible(r));
    }
  }

  lemma RankedIsStrict(r: seq<Candidate>)
    requires DistinctIds(r)
    ensures Strict(Ranked(r), Before)
    ensures forall e :: e in Ranked(r) <==> e in r && IsEligible(e)
  {
    var s, before := Eligible(r), Before;
    EligibleIn(r);
    EligibleDistinct(r);
    forall x, y, z | x in s && y in s && z in s && before(x, y) && before(y, z) ensures before(x, z) {
      CompareIsStrictTotalOrder(x, y, z);
    }
    forall x | x in s ensures !before(x, x) { CompareIsStrictTotalOrder(x, x, x); }
    forall i, j | 0 <= i < j < |s| ensures before(s[i], s[j]) || before(s[j], s[i]) {
      CompareIsStrictTotalOrder(s[i], s[j], s[j]);
    }
    SortStrict(s, before);
    RankedIn(r);
  }

  /** Any strictly ordered listing of exactly the eligible entries is the succession order's. */
  lemma RankedIsUnique(r: seq<Candidate>, listing: seq<Candidate>)
    requires DistinctIds(r) && Strict(listing, Before)
    requires forall e :: e in listing <==> e in r && IsEligible(e)
    ensures listing == Ranked(r)
  {
    RankedIsStrict(r);
    var before := Before;
    forall x, y | x in listing && y in listing && before(x, y) ensures !before(y, x) {
      CompareIsStrictTotalOrder(x, y, y);
    }
    StrictIsUnique(listing, Ranked(r), before);
  }

  /** The order depends on the roster only as a set: every permutation of it gives the same succession. */
  lemma OrderIsSetFunction(r: seq<Candidate>, q: seq<Candidate>)
    requires DistinctIds(r) && DistinctIds(q) && forall e :: e in r <==> e in q
    ensures SuccessionOrder(r) == SuccessionOrder(q)
  {
    RankedIsStrict(q);
    RankedIsUnique(r, Ranked(q));
  }

  function KeptOf(s: seq<Candidate>, gone: set<string>): seq<Candidate> {
    if s == [] then [] else (if s[0].peerId in gone then [] else [s[0]]) + KeptOf(s[1..], gone)
  }

  lemma {:induction false} KeptOfIn(s: seq<Candidate>, gone: set<string>)
    ensures forall e :: e in KeptOf(s, gone) <==> e in s && e.peerId !in gone
  {
    if s != [] {
      KeptOfIn(s[1..], gone);
      assert s == [s[0]] + s[1..];
    }
  }

  lemma {:induction false} KeptOfStrict(s: seq<Candidate>, gone: set<string>, before: (Candidate, Candidate) -> bool)
    requires Strict(s, before)
    ensures Strict(KeptOf(s, gone), before)
  {
    if s != [] {
      forall i, j | 0 <= i < j < |s[1..]| ensures before(s[1..][i], s[1..][j]) {
        assert before(s[i + 1], s[j + 1]);
      }
      KeptOfStrict(s[1..], gone, before);
      KeptOfIn(s[1..], gone);
      var rest := KeptOf(s[1..], gone);
      forall j | 0 <= j < |rest| ensures before(s[0], rest[j]) {
        assert rest[j] in KeptOf(s[1..], gone);
        assert rest[j] in s[1..];
        var k :| 0 <= k < |s[1..]| && s[1..][k] == rest[j];
        assert before(s[0], s[k + 1]);
      }
      assert KeptOf(s, gone) == if s[0].peerId in gone then rest else [s[0]] + rest;
    }
  }

  lemma IdsCons(e: Candidate, rest: seq<Candidate>)
    ensures Ids([e] + rest) == [e.peerId] + Ids(rest)
  {
  }

  lemma {:induction false} KeptOfIds(s: seq<Candidate>, gone: set<string>)
    ensures Ids(KeptOf(s, gone)) == Outside(Ids(s), gone)
  {
    if s != [] {
      KeptOfIds(s[1..], gone);
      assert Ids(s)[1..] == Ids(s[1..]);
      var rest := KeptOf(s[1..], gone);
      if s[0].peerId in gone {
        assert KeptOf(s, gone) == rest;
      } else {
        IdsCons(s[0], rest);
      }
    }
  }

  lemma {:induction false} WithoutIn(r: seq<Candidate>, gone: set<string>)
    ensures forall e :: e in Without(r, gone) <==> e in r && e.peerId !in gone
  {
    if r != [] {
      WithoutIn(r[..|r| - 1], gone);
      assert r == r[..|r| - 1] + [r[|r| - 1]];
    }
  }

  lemma {:induction false} WithoutDistinct(r: seq<Candidate>, gone: set<string>)
    requires DistinctIds(r)
    ensures DistinctIds(Without(r, gone))
  {
    if r != [] {
      WithoutDistinct(r[..|r| - 1], gone);
      WithoutIn(r[..|r| - 1], gone);
      LastIsNew(r, Without(r[..|r| - 1], gone));
    }
  }

  /** Removing peers from the roster only deletes them from the order: no survivor changes places. */
  lemma RemovalOnlyDeletes(r: seq<Candidate>, gone: set<string>)
    requires DistinctIds(r)
    ensures SuccessionOrder(Without(r, gone)) == Outside(SuccessionOrder(r), gone)
  {
    RankedIsStrict(r);
    WithoutIn(r, gone);
    WithoutDistinct(r, gone);
    KeptOfIn(Ranked(r), gone);
    KeptOfStrict(Ranked(r), gone, Before);
    KeptOfIds(Ranked(r), gone);
    RankedIsUnique(Without(r, gone), KeptOf(Ranked(r), gone));
  }

  lemma {:induction false} FirstOutsideIsHead(order: seq<string>, gone: set<string>)
    ensures FirstOutside(order, gone) == Head(Outside(order, gone))
  {
    if order != [] { FirstOutsideIsHead(order[1..], gone); }
  }

  /** Skipping the exhausted peers finds the designated heir of the roster without them. */
  lemma NextSuccessorIsHeirOfRest(r: seq<Candidate>, exhausted: set<string>)
    requires DistinctIds(r)
    ensures NextSuccessor(r, exhausted) == DesignatedHeir(Without(r, exhausted))
  {
    RemovalOnlyDeletes(r, exhausted);
    FirstOutsideIsHead(SuccessionOrder(r), exhausted);
  }

  /** The heir is the eligible entry that comes before every other. */
  lemma HeirIsLeast(r: seq<Candidate>, e: Candidate)
    requires DistinctIds(r) && e in r && IsEligible(e)
    ensures DesignatedHeir(r) == Some(e.peerId) <==> forall x | x in r && IsEligible(x) && x != e :: Before(e, x)
  {
    RankedIsStrict(r);
    var s, before := Ranked(r), Before;
    var k :| 0 <= k < |s| && s[k] == e;
    assert s[0] in s;
    if k > 0 {
      assert before(s[0], s[k]);
      CompareIsStrictTotalOrder(s[0], e, e);
      if s[0].peerId == e.peerId { SameIdSameEntry(r, s[0], e); }
    } else {
      forall x | x in r && IsEligible(x) && x != e ensures Before(e, x) {
        var j :| 0 <= j < |s| && s[j] == x;
        assert before(s[0], s[j]);
      }
    }
  }

  lemma SameIdSameEntry(r: seq<Candidate>, a: Candidate, b: Candidate)
    requires DistinctIds(r) && a in r && b in r && a.peerId == b.peerId
    ensures a == b
  {
    var i :| 0 <= i < |r| && r[i] == a;
    var j :| 0 <= j < |r| && r[j] == b;
  }
}
